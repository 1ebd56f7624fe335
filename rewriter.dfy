/**
 * `wikihow2zim/rewriter.py`: the rewriting of a fetched page before it goes
 * into the archive. Links are rewritten relative to the archive's root or
 * marked external, links to excluded articles and categories are removed,
 * `<picture>` sources are dropped and images are deferred to the image
 * registry.
 *
 * The soup is the `Html.Soup` being rewritten; CSS selection
 * (`soup.select`) is an input that maps a selector and the current tree to
 * the nodes it matches, in document order.
 */
module Rewriting {
  import opened Wrappers
  import opened PyStr
  import opened Urls
  import opened Html
  import Images
  import Media
  import Digest

  // ---------------------------------------------------------------------
  // The regular expressions

  /**
   * `s` begins with a match of `pattern` read as a regular expression whose
   * only metacharacter is `.` (any character but a newline).
   */
  predicate DotPrefix(pattern: string, s: string) {
    |pattern| <= |s| &&
    forall k :: 0 <= k < |pattern| ==> if pattern[k] == '.' then s[k] != '\n' else s[k] == pattern[k]
  }

  /** The `path` group of `re.match(pattern + "(?P<path>.+)", s)`: a greedy run up to the first newline. */
  function CapturePath(pattern: string, s: string): (r: Option<string>)
    ensures r.Some? <==> DotPrefix(pattern, s) && |pattern| < |s| && s[|pattern|] != '\n'
    ensures r.Some? ==> r.value != "" && '\n' !in r.value && OccursAt(s, r.value, |pattern|)
    ensures r.Some? ==> |pattern| + |r.value| == |s| || s[|pattern| + |r.value|] == '\n'
  {
    if DotPrefix(pattern, s) && |pattern| < |s| && s[|pattern|] != '\n' then
      var p := TakeUntil(s[|pattern|..], '\n');
      assert s[|pattern|..][0] == s[|pattern|];
      assert s[|pattern|..|pattern| + |p|] == p;
      Some(p)
    else None
  }

  /** A pattern with no newline matches itself, so what follows it is captured. */
  lemma {:induction false} CaptureAfterItself(pattern: string, rest: string)
    requires '\n' !in pattern && '\n' !in rest && rest != ""
    ensures CapturePath(pattern, pattern + rest) == Some(rest)
  {
    var s := pattern + rest;
    forall k | 0 <= k < |pattern|
      ensures if pattern[k] == '.' then s[k] != '\n' else s[k] == pattern[k]
    {
      assert s[k] == pattern[k];
    }
    assert s[|pattern|..] == rest;
    assert s[|pattern|] == rest[0];
  }

  /** Each `.` of a `to_root` such as `"../"` matches any character, not just a dot. */
  lemma DotsAreWildcards()
    ensures CapturePath("../", "ab/Tie-a-Tie") == Some("Tie-a-Tie")
  {
    var s := "ab/Tie-a-Tie";
    assert DotPrefix("../", s) by {
      assert s[0] == 'a' && s[1] == 'b' && s[2] == '/';
    }
    assert s[3..] == "Tie-a-Tie";
    assert '\n' !in "Tie-a-Tie";
    assert TakeUntil("Tie-a-Tie", '\n') == "Tie-a-Tie";
  }

  /**
   * `domain_re.match(href)` with `domain_re = https?://{domain}(?P<path>/.+)`:
   * the path after the domain's `/`, i.e. `match.groupdict().get("path")[1:]`.
   */
  function DomainPath(domain: string, href: string): (r: Option<string>)
    ensures r.Some? ==> StartsWith(href, "http://") || StartsWith(href, "https://")
    ensures r.Some? ==> r.value != "" && '\n' !in r.value
  {
    if StartsWith(href, "https://") then CapturePath(domain + "/", href[8..])
    else if StartsWith(href, "http://") then CapturePath(domain + "/", href[7..])
    else None
  }

  /** A link onto the site's own domain yields the path after `domain/`, over either scheme. */
  lemma OnDomainPath(domain: string, scheme: string, rest: string)
    requires scheme == "http" || scheme == "https"
    requires '\n' !in domain && '\n' !in rest && rest != ""
    ensures DomainPath(domain, scheme + "://" + domain + "/" + rest) == Some(rest)
  {
    var href := scheme + "://" + domain + "/" + rest;
    CaptureAfterItself(domain + "/", rest);
    if scheme == "https" {
      assert href[..8] == "https://";
      assert href[8..] == domain + "/" + rest;
    } else {
      assert href[..7] == "http://";
      assert href[4] == ':';
      assert href[7..] == domain + "/" + rest;
    }
  }

  /** `re.sub(r"^(\.\.?/)+", "", path)`: the leading run of `../` and `./` segments removed. */
  function DropDotSegments(path: string): (r: string)
    decreases |path|
    ensures |r| <= |path| && r == path[|path| - |r|..]
    ensures !StartsWith(r, "../") && !StartsWith(r, "./")
  {
    if StartsWith(path, "../") then DropDotSegments(path[3..])
    else if StartsWith(path, "./") then DropDotSegments(path[2..])
    else path
  }

  /** The path `rewrite_relative_link` puts after `to_root`: dot segments then one leading `/` removed. */
  function RootPath(path: string): (r: string)
    ensures |r| <= |path|
  {
    var p := DropDotSegments(path);
    if StartsWith(p, "/") then p[1..] else p
  }

  /** Any folder-walking prefix is read as walking to the root. */
  lemma RootPathOfWalk(walk: nat, name: string)
    requires name == "" || (name[0] != '.' && name[0] != '/')
    ensures RootPath(Walk(walk) + name) == name
  {
    WalkDropped(walk, name);
    if |name| >= 1 {
      assert name[..1][0] == name[0];
    }
  }

  /** `"../"` repeated. */
  function Walk(n: nat): string {
    if n == 0 then "" else "../" + Walk(n - 1)
  }

  lemma {:induction false} WalkDropped(n: nat, name: string)
    requires name == "" || name[0] != '.'
    ensures DropDotSegments(Walk(n) + name) == name
    decreases n, 1
  {
    if n > 0 {
      WalkDroppedStep(n, name);
    } else {
      assert Walk(n) + name == name;
      NothingToDrop(name);
    }
  }

  /** One `../` of the walk is dropped, then the rest of it. */
  lemma {:induction false} WalkDroppedStep(n: nat, name: string)
    requires n > 0 && (name == "" || name[0] != '.')
    ensures DropDotSegments(Walk(n) + name) == name
    decreases n, 0
  {
    var rest := Walk(n - 1) + name;
    calc {
      DropDotSegments(Walk(n) + name);
      { assert Walk(n) + name == "../" + rest; }
      DropDotSegments("../" + rest);
      { DropOneWalk(rest); }
      DropDotSegments(rest);
      { WalkDropped(n - 1, name); }
      name;
    }
  }

  /** A leading `../` is dropped. */
  lemma DropOneWalk(rest: string)
    ensures DropDotSegments("../" + rest) == DropDotSegments(rest)
  {
    var s := "../" + rest;
    assert s[..3] == "../";
    assert s[3..] == rest;
  }

  /** A path not beginning with a dot keeps all of it. */
  lemma NothingToDrop(name: string)
    requires name == "" || name[0] != '.'
    ensures DropDotSegments(name) == name
  {
    assert !StartsWith(name, "../") by {
      if |name| >= 3 {
        assert name[..3][0] == name[0];
      }
    }
    assert !StartsWith(name, "./") by {
      if |name| >= 2 {
        assert name[..2][0] == name[0];
      }
    }
  }

  // ---------------------------------------------------------------------
  // rewrite_links

  /** What `rewrite_links` needs of the scraper's configuration. */
  datatype LinkConf = LinkConf(lib: UrlLib, domain: string, toRoot: string, withoutExternalLinks: bool)

  /** `link["href"][0] in ("/", ".") or not link["href"].startswith("http")`. */
  function IsRelative(href: string): (r: bool)
    requires href != ""
    ensures r <==> !StartsWith(href, "http")
  {
    assert StartsWith(href, "http") ==> href[0] == 'h';
    href[0] == '/' || href[0] == '.' || !StartsWith(href, "http")
  }

  /**
   * `rewrite_relative_link`'s new href: `to_root` for an empty one, else the
   * URL rebuilt with its path re-rooted. None where `urlparse` raises, in
   * which case the link is treated as external.
   */
  function RelativeHref(lib: UrlLib, toRoot: string, href: string): (r: Option<string>)
    ensures href == "" ==> r == Some(toRoot)
    ensures r.None? <==> href != "" && lib.urlparse(href).None?
  {
    if href == "" then Some(toRoot)
    else
      match lib.urlparse(href)
      case None => None
      case Some(uri) => Some(GetUrl(lib, RebuildUri(lib, uri, PathOverride(toRoot + RootPath(uri.path)), true).value))
  }

  /** The rebuilt URL keeps the parsed link's scheme, query and fragment and has the re-rooted path. */
  lemma RelativeHrefParts(lib: UrlLib, toRoot: string, href: string)
    requires href != "" && lib.urlparse(href).Some?
    requires RebuildParts(lib, lib.urlparse(href).value, PathOverride(toRoot + RootPath(lib.urlparse(href).value.path))).Ok?
    ensures var uri := lib.urlparse(href).value;
            var parts := RebuildParts(lib, uri, PathOverride(toRoot + RootPath(uri.path))).value;
            parts.path == toRoot + RootPath(uri.path) &&
            parts.scheme == uri.scheme && parts.query == uri.query && parts.fragment == uri.fragment &&
            (lib.urlparse(lib.urlunparse(parts)).Some? ==>
               RelativeHref(lib, toRoot, href) == Some(GetUrl(lib, lib.urlparse(lib.urlunparse(parts)).value)))
  {
  }

  /** What `rewrite_links` does with one link's href. */
  datatype LinkOutcome =
    | DropHref                   // blank href: the attribute is deleted
    | Untouched                  // a fragment link, or a link inside code
    | Relative(href: string)     // rewritten to the in-archive target
    | External(href: string)     // the (stripped) href of a link off the site

  function ClassifyLink(conf: LinkConf, href: string, inCode: bool): (r: LinkOutcome)
    ensures r.DropHref? <==> Strip(href) == ""
    ensures r.Untouched? <==> Strip(href) != "" && (StartsWith(href, "#") || inCode)
    ensures r.External? && !IsRelative(Strip(href)) && DomainPath(conf.domain, Strip(href)).None? ==> r.href == Strip(href)
    ensures r.External? ==> StartsWith(Strip(href), "http") ||
                            (r.href == Strip(href) && Strip(href) != "" && conf.lib.urlparse(Strip(href)).None?)
    // a relative href is rewritten by rewrite_relative_link, or treated as external when that fails
    ensures Strip(href) != "" && !StartsWith(href, "#") && !inCode && IsRelative(Strip(href)) ==>
      r == (if RelativeHref(conf.lib, conf.toRoot, Strip(href)).Some?
            then Relative(RelativeHref(conf.lib, conf.toRoot, Strip(href)).value) else External(Strip(href)))
    // an absolute href onto the site gives its path to rewrite_relative_link
    ensures (Strip(href) != "" && !StartsWith(href, "#") && !inCode && !IsRelative(Strip(href)) &&
             DomainPath(conf.domain, Strip(href)).Some?) ==>
      var path := DomainPath(conf.domain, Strip(href)).value;
      r == (if RelativeHref(conf.lib, conf.toRoot, path).Some?
            then Relative(RelativeHref(conf.lib, conf.toRoot, path).value) else External(path))
    // any other absolute href is external, stripped
    ensures (Strip(href) != "" && !StartsWith(href, "#") && !inCode && !IsRelative(Strip(href)) &&
             DomainPath(conf.domain, Strip(href)).None?) ==> r == External(Strip(href))
  {
    if Strip(href) == "" then DropHref
    else if StartsWith(href, "#") then Untouched
    else if inCode then Untouched
    else
      var h := Strip(href);
      var onDomain := if IsRelative(h) then None else DomainPath(conf.domain, h);
      var target := if onDomain.Some? then onDomain.value else h;
      if IsRelative(h) || onDomain.Some? then
        match RelativeHref(conf.lib, conf.toRoot, target)
        case Some(x) => Relative(x)
        case None => External(target)
      else External(target)
  }

  /** An absolute http(s) link onto the site's domain, as `ClassifyLink` sees it: kept by `Strip`, not relative, and its path found. */
  lemma OnDomainLinkFacts(domain: string, scheme: string, rest: string)
    requires scheme == "http" || scheme == "https"
    requires '\n' !in domain && '\n' !in rest && rest != ""
    ensures var href := scheme + "://" + domain + "/" + rest;
      href != "" && !StartsWith(href, "#") && !IsRelative(href) && DomainPath(domain, href) == Some(rest)
  {
    var href := scheme + "://" + domain + "/" + rest;
    OnDomainPath(domain, scheme, rest);
    assert href[0] == 'h';
    assert href[..4] == "http";
    assert !StartsWith(href, "#") by {
      assert href[..1][0] == 'h';
    }
  }

  /** A link onto the site's domain is rewritten as the relative link to its path. */
  lemma OnDomainLinkIsRelative(conf: LinkConf, scheme: string, rest: string)
    requires scheme == "http" || scheme == "https"
    requires '\n' !in conf.domain && '\n' !in rest && rest != ""
    requires Strip(scheme + "://" + conf.domain + "/" + rest) == scheme + "://" + conf.domain + "/" + rest
    requires conf.lib.urlparse(rest).Some?
    ensures ClassifyLink(conf, scheme + "://" + conf.domain + "/" + rest, false) ==
            Relative(RelativeHref(conf.lib, conf.toRoot, rest).value)
  {
    var href := scheme + "://" + conf.domain + "/" + rest;
    OnDomainLinkFacts(conf.domain, scheme, rest);
    assert RelativeHref(conf.lib, conf.toRoot, rest).Some?;
    ClassifiedOnDomain(conf, href, rest);
  }

  /** `ClassifyLink` on an href already stripped, absolute and onto the domain, whose path `rewrite_relative_link` accepts. */
  lemma ClassifiedOnDomain(conf: LinkConf, href: string, path: string)
    requires Strip(href) == href && href != "" && !StartsWith(href, "#") && !IsRelative(href)
    requires DomainPath(conf.domain, href) == Some(path) && RelativeHref(conf.lib, conf.toRoot, path).Some?
    ensures ClassifyLink(conf, href, false) == Relative(RelativeHref(conf.lib, conf.toRoot, path).value)
  {
  }

  /** `rewrite_external_link`: the class gains `external-link` (joined into one string); href dropped if asked. */
  function MarkExternal(n: Node, href: string, withoutExternalLinks: bool): (r: Node)
    ensures n.Element? ==> r.Element? && r.name == n.name && r.parent == n.parent
    ensures n.Element? ==> r.classes == [Join(n.classes + ["external-link"], ' ')]
    ensures n.Element? ==> ("href" in r.attrs <==> !withoutExternalLinks)
    ensures n.Element? && !withoutExternalLinks ==> r.attrs == n.attrs["href" := href]
    ensures n.Element? && withoutExternalLinks ==> r.attrs == n.attrs - {"href"}
    ensures n.Text? ==> r == n
  {
    match n
    case Text(_, _) => n
    case Element(name, attrs, classes, parent) =>
      var attrs' := if withoutExternalLinks then attrs - {"href"} else attrs["href" := href];
      Element(name, attrs', [Join(classes + ["external-link"], ' ')], parent)
  }

  /** The link after `rewrite_links` has seen it. */
  function ApplyLink(conf: LinkConf, n: Node, outcome: LinkOutcome): Node {
    match outcome
    case DropHref => DelAttr(n, "href")
    case Untouched => n
    case Relative(x) => SetAttr(n, "href", x)
    case External(x) => MarkExternal(n, x, conf.withoutExternalLinks)
  }

  predicate IsHrefLink(n: Node) {
    n.Element? && n.name == "a" && "href" in n.attrs
  }

  /** `find_all("a", href=True)`'s test. */
  function HrefLinkTest(): Node -> bool {
    (n: Node) => IsHrefLink(n)
  }

  /** Node `i` of the tree, as `rewrite_links` leaves it. */
  function RewrittenLink(conf: LinkConf, nodes: seq<Node>, i: nat): (r: Node)
    requires i < |nodes| && IsHrefLink(nodes[i])
    ensures r.Element? && r.name == nodes[i].name && r.parent == nodes[i].parent
  {
    ApplyLink(conf, nodes[i], ClassifyLink(conf, nodes[i].attrs["href"], IsInCode(nodes, i)))
  }

  /** A link with a blank href loses it; a fragment link or a link in code is left as it is. */
  lemma RewrittenLinkCases(conf: LinkConf, nodes: seq<Node>, i: nat)
    requires i < |nodes| && IsHrefLink(nodes[i])
    ensures var h := nodes[i].attrs["href"];
            var r := RewrittenLink(conf, nodes, i);
            (Strip(h) == "" ==> r.attrs == nodes[i].attrs - {"href"} && r.classes == nodes[i].classes) &&
            (Strip(h) != "" && (StartsWith(h, "#") || IsInCode(nodes, i)) ==> r == nodes[i]) &&
            (ClassifyLink(conf, h, IsInCode(nodes, i)).Relative? ==>
               r.attrs == nodes[i].attrs["href" := ClassifyLink(conf, h, IsInCode(nodes, i)).href] && r.classes == nodes[i].classes) &&
            (ClassifyLink(conf, h, IsInCode(nodes, i)).External? ==>
               r.classes == [Join(nodes[i].classes + ["external-link"], ' ')] && ("href" in r.attrs <==> !conf.withoutExternalLinks))
  {
  }

  /** The same nodes with the same names, kinds and parents: attribute edits keep this. */
  predicate SameShape(a: seq<Node>, b: seq<Node>) {
    |a| == |b| &&
    forall i :: 0 <= i < |a| ==> a[i].parent == b[i].parent && a[i].Element? == b[i].Element? &&
                                 (a[i].Element? ==> a[i].name == b[i].name)
  }

  lemma {:induction false} InCodeSameShape(a: seq<Node>, b: seq<Node>, i: nat)
    requires SameShape(a, b)
    ensures IsInCode(a, i) == IsInCode(b, i)
    decreases i
  {
    if Up(a, i).Some? {
      InCodeSameShape(a, b, Up(a, i).value);
    }
  }

  /** A link's rewrite reads only the link and the names of its ancestors. */
  lemma RewrittenLinkSameShape(conf: LinkConf, a: seq<Node>, b: seq<Node>, i: nat)
    requires SameShape(a, b) && i < |a| && a[i] == b[i] && IsHrefLink(a[i])
    ensures RewrittenLink(conf, a, i) == RewrittenLink(conf, b, i)
  {
    InCodeSameShape(a, b, i);
  }

  /** A tree whose listed links, and only those, are rewritten is what the pass yields. */
  lemma LinksPassIs(conf: LinkConf, t: Tree, links: seq<nat>, nodes: seq<Node>)
    requires links == FindAll(t, HrefLinkTest())
    requires |nodes| == |t.nodes|
    requires forall i :: 0 <= i < |t.nodes| ==> nodes[i] == if i in links then RewrittenLink(conf, t.nodes, i) else t.nodes[i]
    ensures Tree(nodes, t.decomposed, t.blanked) == LinksPass(conf, t)
  {
    var r := LinksPass(conf, t);
    forall i | 0 <= i < |t.nodes|
      ensures nodes[i] == r.nodes[i]
    {
      if 0 < i && Live(t, i) && IsHrefLink(t.nodes[i]) {
        FindAllComplete(t, HrefLinkTest(), i);
      }
    }
  }

  /** Reading the tree back after a pass is reading these live, matching nodes. */
  function LinksPass(conf: LinkConf, t: Tree): (r: Tree)
    ensures r.decomposed == t.decomposed && r.blanked == t.blanked && SameShape(t.nodes, r.nodes)
    ensures forall i :: 0 <= i < |t.nodes| && !(0 < i && Live(t, i) && IsHrefLink(t.nodes[i])) ==> r.nodes[i] == t.nodes[i]
    ensures forall i :: 0 < i < |t.nodes| && Live(t, i) && IsHrefLink(t.nodes[i]) ==> r.nodes[i] == RewrittenLink(conf, t.nodes, i)
  {
    var nodes := seq(|t.nodes|, i requires 0 <= i < |t.nodes| =>
      if 0 < i && Live(t, i) && IsHrefLink(t.nodes[i]) then RewrittenLink(conf, t.nodes, i) else t.nodes[i]);
    Tree(nodes, t.decomposed, t.blanked)
  }

  // ---------------------------------------------------------------------
  // rewrite_links_for_excludes

  /** `SelectorDef`: which links to look at and what to remove when one points at an excluded page. */
  datatype SelectorDef = SelectorDef(
    selector: string, forCategory: bool, targetIsParent: bool, clearParentPreviousSibling: bool)

  /** The seven selectors, in the order they are applied. */
  const Selectors: seq<SelectorDef> := [
    SelectorDef("#relatedwikihows > a.related-wh[href]", false, false, false),
    SelectorDef("#cat_all div.responsive_thumb > a[href]", false, true, false),
    SelectorDef("#subcats > ul a[href]", true, true, false),
    SelectorDef(".cat_container a[href]", true, true, false),
    SelectorDef("#catlist_container #catlist a[href]", true, true, false),
    SelectorDef(".breadcrumbs a[href]", true, true, false),
    SelectorDef(".sp_box.sp_fullbox a[href]", true, true, true)
  ]

  /** What the exclusion pass reads: `--exclude`, the category prefix and the excluded sets. */
  datatype ExcludeConf = ExcludeConf(
    lib: UrlLib, exclude: bool, toRoot: string, categoryPrefix: string,
    excludedArticles: set<string>, excludedCategories: set<string>)

  /** The exception that escapes the pass. */
  datatype Raised =
    | TypeError       // `link.attrs` of a link destroyed by an earlier removal is None
    | KeyError        // a selected element without href
    | AttributeError  // `.parent` or `.previous_sibling` is None

  /** The page a (normalised) href points at, read with `article_re` or `category_re`. */
  function TargetPath(conf: ExcludeConf, forCategory: bool, href: string): Option<string> {
    if forCategory then CapturePath(conf.toRoot + conf.categoryPrefix + ":", href)
    else CapturePath(conf.toRoot, href)
  }

  /** The href points at an excluded article or category. */
  predicate PointsAtExcluded(conf: ExcludeConf, forCategory: bool, href: string): (r: bool)
    // the href matches the pattern, and the non-empty rest of its first line is an excluded page
    ensures r <==>
      var pattern := if forCategory then conf.toRoot + conf.categoryPrefix + ":" else conf.toRoot;
      var excluded := if forCategory then conf.excludedCategories else conf.excludedArticles;
      DotPrefix(pattern, href) && TakeUntil(href[|pattern|..], '\n') != "" && TakeUntil(href[|pattern|..], '\n') in excluded
  {
    var m := TargetPath(conf, forCategory, href);
    m.Some? && m.value in (if forCategory then conf.excludedCategories else conf.excludedArticles)
  }

  /** `link.parent.previous_sibling.replace_with("")`. */
  function ClearParentSibling(t: Tree, link: nat): (r: Result<Tree, Raised>)
    ensures r.Err? <==> ParentOf(t, link).None? || PreviousSibling(t, ParentOf(t, link).value).None?
    ensures r.Ok? ==> r.value == WithBlanked(t, PreviousSibling(t, ParentOf(t, link).value).value)
    ensures r.Ok? ==> ParentOf(r.value, link) == ParentOf(t, link)
  {
    match ParentOf(t, link)
    case None => Err(AttributeError)
    case Some(p) =>
      match PreviousSibling(t, p)
      case None => Err(AttributeError)
      case Some(k) =>
        assert k < p < link;
        Ok(WithBlanked(t, k))
  }

  /** `remove_link_for_exclusion`. */
  function RemoveForExclusion(t: Tree, link: nat, sdef: SelectorDef): (r: Result<Tree, Raised>)
    ensures r.Ok? ==> r.value.nodes == t.nodes && t.decomposed <= r.value.decomposed && t.blanked <= r.value.blanked
    ensures r.Ok? && !sdef.clearParentPreviousSibling ==> r.value.blanked == t.blanked
    // the clear flag blanks the previous sibling of the link's parent, and only that node
    ensures r.Ok? && sdef.clearParentPreviousSibling ==>
      ParentOf(t, link).Some? && PreviousSibling(t, ParentOf(t, link).value).Some? &&
      r.value.blanked == t.blanked + {PreviousSibling(t, ParentOf(t, link).value).value}
    ensures r.Ok? && !sdef.targetIsParent ==> r.value.decomposed == t.decomposed + {link}
    ensures r.Ok? && sdef.targetIsParent ==> ParentOf(t, link).Some? && r.value.decomposed == t.decomposed + {ParentOf(t, link).value}
    ensures r.Err? <==> ((sdef.targetIsParent || sdef.clearParentPreviousSibling) && ParentOf(t, link).None?) ||
                        (sdef.clearParentPreviousSibling && ClearParentSibling(t, link).Err?)
  {
    var cleared := if sdef.clearParentPreviousSibling then ClearParentSibling(t, link) else Ok(t);
    match cleared
    case Err(e) => Err(e)
    case Ok(t1) =>
      if sdef.targetIsParent then
        match ParentOf(t1, link)
        case None => Err(AttributeError)
        case Some(p) => Ok(WithDecomposed(t1, p))
      else Ok(WithDecomposed(t1, link))
  }

  /** One link of one selector's matches. */
  function ExcludeLink(conf: ExcludeConf, sdef: SelectorDef, t: Tree, link: nat): (r: Result<Tree, Raised>)
    ensures r.Ok? ==> r.value.nodes == t.nodes && t.decomposed <= r.value.decomposed && t.blanked <= r.value.blanked
    ensures link < |t.nodes| && Destroyed(t, link) ==> r == Err(TypeError)
    ensures r.Ok? && r.value != t ==>
      link < |t.nodes| && t.nodes[link].Element? && "href" in t.nodes[link].attrs &&
      PointsAtExcluded(conf, sdef.forCategory, conf.lib.unquote(t.nodes[link].attrs["href"]))
    ensures link < |t.nodes| && !Destroyed(t, link) && t.nodes[link].Text? ==> r == Err(AttributeError)
    ensures link < |t.nodes| && !Destroyed(t, link) && t.nodes[link].Element? && "href" !in t.nodes[link].attrs ==> r == Err(KeyError)
    ensures link < |t.nodes| && !Destroyed(t, link) && t.nodes[link].Element? && "href" in t.nodes[link].attrs ==>
      (r.Ok? && r.value != t <==>
        PointsAtExcluded(conf, sdef.forCategory, conf.lib.unquote(t.nodes[link].attrs["href"])) &&
        RemoveForExclusion(t, link, sdef).Ok?)
  {
    if link >= |t.nodes| then Ok(t)  // `soup.select` only returns nodes of the tree
    else if Destroyed(t, link) then Err(TypeError)
    else if t.nodes[link].Text? then Err(AttributeError)
    else if "href" !in t.nodes[link].attrs then Err(KeyError)
    else if PointsAtExcluded(conf, sdef.forCategory, conf.lib.unquote(t.nodes[link].attrs["href"])) then
      RemoveForExclusion(t, link, sdef)
    else Ok(t)
  }

  /** One selector's matches, in order; the first exception stops the pass. */
  function ExcludeLinks(conf: ExcludeConf, sdef: SelectorDef, t: Tree, links: seq<nat>): (r: Result<Tree, Raised>)
    decreases |links|
    ensures r.Ok? ==> r.value.nodes == t.nodes && t.decomposed <= r.value.decomposed && t.blanked <= r.value.blanked
  {
    if |links| == 0 then Ok(t)
    else
      match ExcludeLink(conf, sdef, t, links[0])
      case Err(e) => Err(e)
      case Ok(t1) => ExcludeLinks(conf, sdef, t1, links[1..])
  }

  /** The selectors in order, each selected against the tree the previous ones left. */
  function ExcludeAll(conf: ExcludeConf, select: (string, Tree) -> seq<nat>, t: Tree, defs: seq<SelectorDef>): (r: Result<Tree, Raised>)
    decreases |defs|
    ensures r.Ok? ==> r.value.nodes == t.nodes && t.decomposed <= r.value.decomposed && t.blanked <= r.value.blanked
  {
    if |defs| == 0 then Ok(t)
    else
      match ExcludeLinks(conf, defs[0], t, select(defs[0].selector, t))
      case Err(e) => Err(e)
      case Ok(t1) => ExcludeAll(conf, select, t1, defs[1..])
  }

  /** `rewrite_links_for_excludes`: nothing unless `--exclude` was given. */
  function ExcludePass(conf: ExcludeConf, select: (string, Tree) -> seq<nat>, t: Tree): (r: Result<Tree, Raised>)
    ensures !conf.exclude ==> r == Ok(t)
    ensures r.Ok? ==> r.value.nodes == t.nodes && t.decomposed <= r.value.decomposed && t.blanked <= r.value.blanked
  {
    if !conf.exclude then Ok(t) else ExcludeAll(conf, select, t, Selectors)
  }

  /** A link that does not point at an excluded page is left alone. */
  lemma KeptLink(conf: ExcludeConf, sdef: SelectorDef, t: Tree, link: nat)
    requires link < |t.nodes| && !Destroyed(t, link) && IsHrefLink(t.nodes[link])
    requires !PointsAtExcluded(conf, sdef.forCategory, conf.lib.unquote(t.nodes[link].attrs["href"]))
    ensures ExcludeLink(conf, sdef, t, link) == Ok(t)
  {
  }

  /** A live link whose href points at an excluded page goes through `remove_link_for_exclusion`, whatever the selector. */
  lemma ExcludedRemoved(conf: ExcludeConf, sdef: SelectorDef, t: Tree, link: nat)
    requires link < |t.nodes| && !Destroyed(t, link) && t.nodes[link].Element? && "href" in t.nodes[link].attrs
    requires PointsAtExcluded(conf, sdef.forCategory, conf.lib.unquote(t.nodes[link].attrs["href"]))
    ensures ExcludeLink(conf, sdef, t, link) == RemoveForExclusion(t, link, sdef)
  {
  }

  /** A related-article link to an excluded article is itself decomposed. */
  lemma RelatedArticleRemoved(conf: ExcludeConf, t: Tree, link: nat)
    requires link < |t.nodes| && !Destroyed(t, link) && IsHrefLink(t.nodes[link])
    requires PointsAtExcluded(conf, false, conf.lib.unquote(t.nodes[link].attrs["href"]))
    ensures ExcludeLink(conf, Selectors[0], t, link) == Ok(WithDecomposed(t, link))
  {
  }

  /**
   * Two matches under one parent, both excluded, with the parent as the
   * target: the first removal decomposes the parent, and the second link of
   * the list computed beforehand is then destroyed, so the pass raises.
   */
  lemma {:induction false} SharedParentRaises(conf: ExcludeConf, sdef: SelectorDef, t: Tree, l1: nat, l2: nat, p: nat)
    requires sdef.targetIsParent && !sdef.clearParentPreviousSibling
    requires l1 < |t.nodes| && l2 < |t.nodes| && Up(t.nodes, l1) == Some(p) && Up(t.nodes, l2) == Some(p)
    requires !Destroyed(t, l1) && l1 !in t.blanked && IsHrefLink(t.nodes[l1])
    requires PointsAtExcluded(conf, sdef.forCategory, conf.lib.unquote(t.nodes[l1].attrs["href"]))
    ensures ExcludeLinks(conf, sdef, t, [l1, l2]) == Err(TypeError)
  {
    var t1 := WithDecomposed(t, p);
    assert ExcludeLink(conf, sdef, t, l1) == Ok(t1);
    assert AncestorIn(t1.nodes, l2, t1.decomposed);
    assert ExcludeLink(conf, sdef, t1, l2) == Err(TypeError);
    assert [l1, l2][1..] == [l2];
    assert ExcludeLinks(conf, sdef, t1, [l2]) == Err(TypeError);
  }

  // ---------------------------------------------------------------------
  // rewrite_pictures

  /** A child `rewrite_pictures` decomposes: a tag other than `<img>` (a blanked child is an empty string). */
  predicate Removable(t: Tree, k: nat) {
    k < |t.nodes| && t.nodes[k].Element? && k !in t.blanked && t.nodes[k].name != "img"
  }

  /**
   * The children the loop over `picture.contents` decomposes. Decomposing a
   * child removes it from the very list being iterated, so the child after
   * each removed one is passed over.
   */
  function Swept(t: Tree, c: seq<nat>): (r: set<nat>)
    decreases |c|
    ensures forall k :: k in r ==> k in c && Removable(t, k)
  {
    if |c| == 0 then {}
    else if Removable(t, c[0]) then {c[0]} + (if |c| == 1 then {} else Swept(t, c[2..]))
    else Swept(t, c[1..])
  }

  /** In an ordered list, what a sweep of the part after `c[i]` takes lies beyond `c[i]`. */
  lemma SweptBeyond(t: Tree, c: seq<nat>, i: nat, rest: seq<nat>)
    requires forall a, b :: 0 <= a < b < |c| ==> c[a] < c[b]
    requires i < |c| && rest == c[i + 1..]
    ensures forall k :: k in Swept(t, rest) ==> k in rest && k > c[i]
  {
    forall k | k in Swept(t, rest)
      ensures k > c[i]
    {
      var n :| 0 <= n < |rest| && rest[n] == k;
      assert c[i + 1 + n] == k;
    }
  }

  /** In an ordered list of children, one is swept exactly when it is removable and the one before it was not swept. */
  lemma {:induction false} SweptIff(t: Tree, c: seq<nat>, j: nat)
    requires forall a, b :: 0 <= a < b < |c| ==> c[a] < c[b]
    requires j < |c|
    ensures c[j] in Swept(t, c) <==> Removable(t, c[j]) && (j == 0 || c[j - 1] !in Swept(t, c))
    decreases |c|, 1
  {
    if j == 0 {
      if Removable(t, c[0]) {
        assert c[0] in Swept(t, c);
      }
    } else if Removable(t, c[0]) {
      SweptIffTaken(t, c, j);
    } else {
      SweptIffKept(t, c, j);
    }
  }

  /** SweptIff past a first child that is taken: the second is skipped, the sweep goes on from the third. */
  lemma {:induction false} SweptIffTaken(t: Tree, c: seq<nat>, j: nat)
    requires forall a, b :: 0 <= a < b < |c| ==> c[a] < c[b]
    requires 0 < j < |c| && Removable(t, c[0])
    ensures c[j] in Swept(t, c) <==> Removable(t, c[j]) && c[j - 1] !in Swept(t, c)
    decreases |c|, 0
  {
    var swept := Swept(t, c);
    var rest := c[2..];
    assert swept == {c[0]} + Swept(t, rest);
    SweptBeyond(t, c, 1, rest);
    if j == 1 {
      assert c[1] !in swept;
    } else {
      SweptIff(t, rest, j - 2);
      assert rest[j - 2] == c[j] && c[j] != c[0];
      if j > 2 {
        assert rest[j - 3] == c[j - 1] && c[j - 1] != c[0];
      } else {
        assert c[1] !in swept;
      }
    }
  }

  /** SweptIff past a first child that stays: the sweep goes on from the second. */
  lemma {:induction false} SweptIffKept(t: Tree, c: seq<nat>, j: nat)
    requires forall a, b :: 0 <= a < b < |c| ==> c[a] < c[b]
    requires 0 < j < |c| && !Removable(t, c[0])
    ensures c[j] in Swept(t, c) <==> Removable(t, c[j]) && c[j - 1] !in Swept(t, c)
    decreases |c|, 0
  {
    var rest := c[1..];
    assert Swept(t, c) == Swept(t, rest);
    SweptIff(t, rest, j - 1);
    assert rest[j - 1] == c[j];
    if j > 1 {
      assert rest[j - 2] == c[j - 1];
    }
  }



  /** The list from position `i` on, empty past its end. */
  function From(s: seq<nat>, i: nat): seq<nat> {
    if i <= |s| then s[i..] else []
  }

  /** Removing a removable child at `i` and stepping past the next one: the rest of the sweep is unchanged. */
  lemma SweptRemoves(t: Tree, list: seq<nat>, i: nat)
    requires i < |list| && Removable(t, list[i])
    ensures Swept(t, From(list, i)) == {list[i]} + Swept(t, From(list[..i] + list[i + 1..], i + 1))
  {
    var shrunk := list[..i] + list[i + 1..];
    if i + 1 < |list| {
      assert From(shrunk, i + 1) == list[i..][2..];
    } else {
      assert From(shrunk, i + 1) == [];
    }
  }

  /** Stepping past a child that stays. */
  lemma SweptKeeps(t: Tree, list: seq<nat>, i: nat)
    requires i < |list| && !Removable(t, list[i])
    ensures Swept(t, From(list, i)) == Swept(t, From(list, i + 1))
  {
    assert list[i..][1..] == list[i + 1..];
  }

  /** Only the first of two adjacent `<source>` children goes. */
  lemma AdjacentSourcesSweep(t: Tree, s1: nat, s2: nat, img: nat)
    requires Removable(t, s1) && Removable(t, s2) && !Removable(t, img)
    ensures Swept(t, [s1, s2, img]) == {s1}
  {
    assert [s1, s2, img][2..] == [img];
    assert [img][1..] == [];
  }

  /** One picture: its children swept if it holds an `<img>`. */
  function PictureStep(t: Tree, p: nat): (r: Tree)
    ensures r.nodes == t.nodes && r.blanked == t.blanked && t.decomposed <= r.decomposed
    ensures !HasImgBelow(t, p) ==> r == t
    ensures forall k :: k in r.decomposed - t.decomposed ==> k in Contents(t, p) && Removable(t, k)
  {
    if HasImgBelow(t, p) then t.(decomposed := t.decomposed + Swept(t, Contents(t, p))) else t
  }

  /** `rewrite_pictures`: the pictures found beforehand, each against the tree the previous ones left. */
  function PicturesFrom(t: Tree, pics: seq<nat>): (r: Tree)
    decreases |pics|
    ensures r.nodes == t.nodes && r.blanked == t.blanked && t.decomposed <= r.decomposed
  {
    if |pics| == 0 then t else PicturesFrom(PictureStep(t, pics[0]), pics[1..])
  }

  /** No `<img>` is ever decomposed by the picture pass. */
  lemma {:induction false} PicturesKeepImages(t: Tree, pics: seq<nat>, k: nat)
    requires k < |t.nodes| && TagNamed("img")(t.nodes[k])
    ensures k in PicturesFrom(t, pics).decomposed <==> k in t.decomposed
    decreases |pics|
  {
    if |pics| > 0 {
      PicturesKeepImages(PictureStep(t, pics[0]), pics[1..], k);
    }
  }

  /** What the pass decomposes is a non-img element hanging directly from one of the pictures. */
  lemma {:induction false} PicturesRemoveOnly(t: Tree, pics: seq<nat>, k: nat)
    ensures k in PicturesFrom(t, pics).decomposed - t.decomposed ==>
      Removable(t, k) && Up(t.nodes, k).Some? && Up(t.nodes, k).value in pics
    decreases |pics|
  {
    if |pics| > 0 {
      var t1 := PictureStep(t, pics[0]);
      PicturesRemoveOnly(t1, pics[1..], k);
      if k in t1.decomposed - t.decomposed {
        assert Up(t.nodes, k) == Some(pics[0]);
      }
    }
  }

  /** The parent of an ancestor is an ancestor too. */
  lemma {:induction false} AncestorOfAncestor(nodes: seq<Node>, a: nat, q: nat, k: nat)
    requires IsAncestor(nodes, a, k) && Up(nodes, a) == Some(q)
    ensures IsAncestor(nodes, q, k)
    decreases k
  {
    var p := Up(nodes, k).value;
    if p != a {
      AncestorOfAncestor(nodes, a, q, p);
    }
  }

  /**
   * An img in the document stays there when no picture of the pass lies
   * above it except, perhaps, its own parent: the img inside a `<picture>`.
   */
  lemma PictureImageStaysLive(t: Tree, pics: seq<nat>, k: nat)
    requires Live(t, k) && TagNamed("img")(t.nodes[k])
    requires forall q :: q in pics && IsAncestor(t.nodes, q, k) ==> Up(t.nodes, k) == Some(q)
    ensures Live(PicturesFrom(t, pics), k)
  {
    var r := PicturesFrom(t, pics);
    PicturesKeepImages(t, pics, k);
    AncestorInIff(t.nodes, k, t.decomposed);
    AncestorInIff(t.nodes, k, r.decomposed);
    forall a | a in r.decomposed && IsAncestor(t.nodes, a, k)
      ensures false
    {
      PicturesRemoveOnly(t, pics, a);
      var q := Up(t.nodes, a).value;
      AncestorOfAncestor(t.nodes, a, q, k);
      if a != Up(t.nodes, k).value {
        assert IsAncestor(t.nodes, a, Up(t.nodes, k).value);
        AncestorBelow(t.nodes, a, q);
      }
    }
  }

  function PictureTest(): Node -> bool {
    TagNamed("picture")
  }

  // ---------------------------------------------------------------------
  // rewrite_images

  /** `img.get(name)` is truthy. */
  predicate Truthy(attrs: map<string, string>, name: string) {
    name in attrs && attrs[name] != ""
  }

  /** The attributes before `defer`, and the URL deferred (None when the image is skipped). */
  datatype ImgPlan = ImgPlan(attrs: map<string, string>, deferred: Option<string>)

  function PlanImg(attrs: map<string, string>, inCode: bool): (r: ImgPlan)
    ensures Truthy(attrs, "onload") ==> "onload" !in r.attrs
    ensures !Truthy(attrs, "onload") && "onload" in attrs ==> "onload" in r.attrs && r.attrs["onload"] == attrs["onload"]
    ensures r.deferred.Some? <==> (Truthy(attrs, "src") || Truthy(attrs, "data-src")) && !inCode
    ensures r.deferred.Some? ==> "src" in r.attrs && r.deferred.value == r.attrs["src"]
    ensures Truthy(attrs, "data-src") && !Truthy(attrs, "src") ==>
      r.attrs == ((if Truthy(attrs, "onload") then attrs - {"onload"} else attrs) - {"data-src", "data-src-nowebp"})["src" := attrs["data-src"]]
    ensures !(Truthy(attrs, "data-src") && !Truthy(attrs, "src")) ==>
      r.attrs == if Truthy(attrs, "onload") then attrs - {"onload"} else attrs
  {
    var a := if Truthy(attrs, "onload") then attrs - {"onload"} else attrs;
    if !Truthy(a, "src") && !Truthy(a, "data-src") then ImgPlan(a, None)
    else
      var b := if Truthy(a, "data-src") && !Truthy(a, "src") then a["src" := a["data-src"]] - {"data-src"} - {"data-src-nowebp"} else a;
      if inCode then ImgPlan(b, None) else ImgPlan(b, Some(b["src"]))
  }

  /** The attributes after `defer` answered `path`. */
  function FinishImg(plan: ImgPlan, toRoot: string, path: Option<string>): (r: map<string, string>)
    ensures plan.deferred.None? ==> r == plan.attrs
    ensures plan.deferred.Some? && path.None? ==> r == plan.attrs - {"src"}
    ensures plan.deferred.Some? && path.Some? ==> r == plan.attrs["src" := toRoot + path.value]
  {
    if plan.deferred.None? then plan.attrs
    else if path.None? then plan.attrs - {"src"}
    else plan.attrs["src" := toRoot + path.value]
  }

  predicate IsImg(n: Node) {
    n.Element? && n.name == "img"
  }

  /** `find_all("img")`'s test. */
  function ImgTest(): Node -> bool {
    (n: Node) => IsImg(n)
  }

  /** The URL image `i` defers, if any. */
  function DeferredSrc(nodes: seq<Node>, i: nat): Option<string> {
    if i < |nodes| && IsImg(nodes[i]) then PlanImg(nodes[i].attrs, IsInCode(nodes, i)).deferred else None
  }

  /** The URLs the images defer, in order. */
  function DeferredSrcs(nodes: seq<Node>, imgs: seq<nat>): (r: seq<string>)
    decreases |imgs|
    ensures |r| <= |imgs|
  {
    if |imgs| == 0 then []
    else
      var d := DeferredSrc(nodes, imgs[0]);
      (if d.Some? then [d.value] else []) + DeferredSrcs(nodes, imgs[1..])
  }

  /** The image registry after `defer` was called with each URL in turn. */
  function DeferAll(lib: UrlLib, mainUrl: string, l: Media.Ledger<Images.ImageJob>, urls: seq<string>): (r: Media.Ledger<Images.ImageJob>)
    decreases |urls|
  {
    if |urls| == 0 then l else DeferAll(lib, mainUrl, Images.DeferLedger(lib, mainUrl, l, urls[0], None), urls[1..])
  }

  /** Taking one more element of a list into its prefix. */
  lemma PrefixGrows(s: seq<nat>, k: nat)
    requires k < |s|
    ensures forall x :: x in s[..k + 1] <==> x in s[..k] || x == s[k]
  {
    assert s[..k + 1] == s[..k] + [s[k]];
  }

  /** A pass that edits the listed nodes one by one: after one more edit, one more of them reads as edited. */
  lemma EditedStep(prev: seq<Node>, next: seq<Node>, found: seq<Node>, listed: seq<nat>, k: nat, edit: nat -> Node)
    requires k < |listed| && listed[k] < |prev| == |found|
    requires forall i :: 0 <= i < |found| ==> prev[i] == if i in listed[..k] then edit(i) else found[i]
    requires next == prev[listed[k] := edit(listed[k])]
    ensures forall i :: 0 <= i < |found| ==> next[i] == if i in listed[..k + 1] then edit(i) else found[i]
  {
    PrefixGrows(listed, k);
  }

  /** One image's step of the fold. */
  lemma DeferAllStep(lib: UrlLib, mainUrl: string, l: Media.Ledger<Images.ImageJob>, nodes: seq<Node>, imgs: seq<nat>, k: nat)
    requires k < |imgs|
    ensures DeferAll(lib, mainUrl, l, DeferredSrcs(nodes, imgs[k..])) ==
            DeferAll(lib, mainUrl,
                     if DeferredSrc(nodes, imgs[k]).Some? then Images.DeferLedger(lib, mainUrl, l, DeferredSrc(nodes, imgs[k]).value, None) else l,
                     DeferredSrcs(nodes, imgs[k + 1..]))
  {
    assert imgs[k..][0] == imgs[k] && imgs[k..][1..] == imgs[k + 1..];
    var rest := DeferredSrcs(nodes, imgs[k + 1..]);
    var d := DeferredSrc(nodes, imgs[k]);
    if d.Some? {
      assert ([d.value] + rest)[1..] == rest;
    } else {
      assert [] + rest == rest;
    }
  }

  /** Deferring keeps the registry's bookkeeping consistent. */
  lemma {:induction false} DeferAllValid(lib: UrlLib, mainUrl: string, l: Media.Ledger<Images.ImageJob>, urls: seq<string>)
    requires Media.LedgerValid(l, Images.KeyOf(lib))
    ensures Media.LedgerValid(DeferAll(lib, mainUrl, l, urls), Images.KeyOf(lib))
    decreases |urls|
  {
    if |urls| > 0 {
      Images.DeferValid(lib, mainUrl, l, urls[0], None);
      DeferAllValid(lib, mainUrl, Images.DeferLedger(lib, mainUrl, l, urls[0], None), urls[1..]);
    }
  }

  /** Every web image URL the page defers ends up handled, whatever was handled before. */
  lemma {:induction false} DeferAllHandles(lib: UrlLib, mainUrl: string, l: Media.Ledger<Images.ImageJob>, urls: seq<string>, j: nat)
    requires j < |urls| && Images.DeferTarget(lib, mainUrl, urls[j]).Some?
    ensures Digest.GetDigest(GetUrl(lib, Images.DeferTarget(lib, mainUrl, urls[j]).value)) in DeferAll(lib, mainUrl, l, urls).handled
    decreases |urls|
  {
    var l1 := Images.DeferLedger(lib, mainUrl, l, urls[0], None);
    if j == 0 {
      DeferAllGrows(lib, mainUrl, l1, urls[1..]);
    } else {
      assert urls[1..][j - 1] == urls[j];
      DeferAllHandles(lib, mainUrl, l1, urls[1..], j - 1);
    }
  }

  lemma {:induction false} DeferAllGrows(lib: UrlLib, mainUrl: string, l: Media.Ledger<Images.ImageJob>, urls: seq<string>)
    ensures l.handled <= DeferAll(lib, mainUrl, l, urls).handled
    decreases |urls|
  {
    if |urls| > 0 {
      var l1 := Images.DeferLedger(lib, mainUrl, l, urls[0], None);
      assert l.handled <= l1.handled;
      DeferAllGrows(lib, mainUrl, l1, urls[1..]);
    }
  }

  /** Image `i` after `rewrite_images`. */
  function RewrittenImg(lib: UrlLib, mainUrl: string, toRoot: string, nodes: seq<Node>, i: nat): (r: Node)
    requires i < |nodes| && IsImg(nodes[i])
    ensures r.Element? && r.name == nodes[i].name && r.parent == nodes[i].parent && r.classes == nodes[i].classes
  {
    var plan := PlanImg(nodes[i].attrs, IsInCode(nodes, i));
    var path := if plan.deferred.Some? then Images.DeferPath(lib, mainUrl, plan.deferred.value, None) else None;
    nodes[i].(attrs := FinishImg(plan, toRoot, path))
  }

  /** A tree whose listed images, and only those, are rewritten is what the pass yields. */
  lemma ImagesPassIs(lib: UrlLib, mainUrl: string, toRoot: string, t: Tree, imgs: seq<nat>, nodes: seq<Node>)
    requires imgs == FindAll(t, ImgTest())
    requires |nodes| == |t.nodes|
    requires forall i :: 0 <= i < |t.nodes| ==>
      nodes[i] == if i in imgs then RewrittenImg(lib, mainUrl, toRoot, t.nodes, i) else t.nodes[i]
    ensures Tree(nodes, t.decomposed, t.blanked) == ImagesPass(lib, mainUrl, toRoot, t)
  {
    var r := ImagesPass(lib, mainUrl, toRoot, t);
    forall i | 0 <= i < |t.nodes|
      ensures nodes[i] == r.nodes[i]
    {
      if 0 < i && Live(t, i) && IsImg(t.nodes[i]) {
        FindAllComplete(t, ImgTest(), i);
      }
    }
  }

  /** The tree after `rewrite_images`. */
  function ImagesPass(lib: UrlLib, mainUrl: string, toRoot: string, t: Tree): (r: Tree)
    ensures r.decomposed == t.decomposed && r.blanked == t.blanked && SameShape(t.nodes, r.nodes)
    ensures forall i :: 0 <= i < |t.nodes| && !(0 < i && Live(t, i) && IsImg(t.nodes[i])) ==> r.nodes[i] == t.nodes[i]
    ensures forall i :: 0 < i < |t.nodes| && Live(t, i) && IsImg(t.nodes[i]) ==> r.nodes[i] == RewrittenImg(lib, mainUrl, toRoot, t.nodes, i)
  {
    var nodes := seq(|t.nodes|, i requires 0 <= i < |t.nodes| =>
      if 0 < i && Live(t, i) && IsImg(t.nodes[i]) then RewrittenImg(lib, mainUrl, toRoot, t.nodes, i) else t.nodes[i]);
    Tree(nodes, t.decomposed, t.blanked)
  }

  // ---------------------------------------------------------------------
  // rewrite

  /** `getattr(soup, "body").unwrap()` then the same for `html`; a missing one raises. */
  function UnwrapBodyHtml(t: Tree): (r: Result<Tree, Raised>)
    ensures FindFirst(t, "body").None? ==> r == Err(AttributeError)
    ensures r.Ok? ==> |r.value.nodes| == |t.nodes| && r.value.blanked == t.blanked
  {
    match FindFirst(t, "body")
    case None => Err(AttributeError)
    case Some(b) =>
      var t1 := Unwrapped(t, b);
      match FindFirst(t1, "html")
      case None => Err(AttributeError)
      case Some(h) => Ok(Unwrapped(t1, h))
  }

  /** The link, exclusion and picture passes, in `rewrite`'s order; or the exception the exclusions let through. */
  function PagePasses(lconf: LinkConf, econf: ExcludeConf, select: (string, Tree) -> seq<nat>, t: Tree): (r: Result<Tree, Raised>)
    ensures r.Ok? ==> r.value.nodes == LinksPass(lconf, t).nodes
    ensures !econf.exclude ==> r.Ok? && r.value.blanked == t.blanked
  {
    var linked := LinksPass(lconf, t);
    match ExcludePass(econf, select, linked)
    case Err(e) => Err(e)
    case Ok(x) => Ok(PicturesFrom(x, FindAll(x, PictureTest())))
  }

  /**
   * The tree `rewrite` hands to the images pass: `<body>` and `<html>`
   * unwrapped, then the page passes; or the exception one of those steps
   * lets through.
   */
  function BeforeImages(lconf: LinkConf, econf: ExcludeConf, select: (string, Tree) -> seq<nat>, t: Tree): (r: Result<Tree, Raised>)
    ensures FindFirst(t, "body").None? ==> r == Err(AttributeError)
    ensures r.Ok? ==> |r.value.nodes| == |t.nodes|
    ensures !econf.exclude && r.Err? ==> r == Err(AttributeError)
    ensures !econf.exclude && r.Ok? ==> r.value.blanked == t.blanked
  {
    match UnwrapBodyHtml(t)
    case Err(e) => Err(e)
    case Ok(u) => PagePasses(lconf, econf, select, u)
  }

  /** What `rewrite` returns: a string it gives back without parsing, the rewritten tree, or the exception it lets through. */
  datatype Output = Page(text: string) | Rewritten(tree: Tree) | Failed(error: Raised)

  /** The rewriter; the scraper fills in the excluded articles and categories. */
  class Rewriter {
    const lib: UrlLib
    const domain: string
    const withoutExternalLinks: bool
    const exclude: bool
    const categoryPrefix: string
    var excludedArticles: set<string>
    var excludedCategories: set<string>

    constructor(lib: UrlLib, domain: string, withoutExternalLinks: bool, exclude: bool, categoryPrefix: string)
      ensures this.lib == lib && this.domain == domain && this.withoutExternalLinks == withoutExternalLinks
      ensures this.exclude == exclude && this.categoryPrefix == categoryPrefix
      ensures excludedArticles == {} && excludedCategories == {}
    {
      this.lib := lib;
      this.domain := domain;
      this.withoutExternalLinks := withoutExternalLinks;
      this.exclude := exclude;
      this.categoryPrefix := categoryPrefix;
      excludedArticles := {};
      excludedCategories := {};
    }

    function LinkConfFor(toRoot: string): LinkConf {
      LinkConf(lib, domain, toRoot, withoutExternalLinks)
    }

    function ExcludeConfFor(toRoot: string): ExcludeConf
      reads this
    {
      ExcludeConf(lib, exclude, toRoot, categoryPrefix, excludedArticles, excludedCategories)
    }

    /** `rewrite_links`: every live `<a href>` rewritten, nothing else touched. */
    method RewriteLinks(soup: Soup, toRoot: string)
      modifies soup
      ensures soup.State() == LinksPass(LinkConfFor(toRoot), old(soup.State()))
    {
      var conf := LinkConfFor(toRoot);
      ghost var t0 := soup.State();
      var links := FindAll(soup.State(), HrefLinkTest());
      // Edits change attributes only, so each link is read against the tree as
      // the pass found it (see RewrittenLinkSameShape).
      var found := soup.nodes;
      var edit := (i: nat) => if i < |found| && IsHrefLink(found[i]) then RewrittenLink(conf, found, i) else Text("", 0);
      var k := 0;
      while k < |links|
        invariant 0 <= k <= |links|
        invariant soup.decomposed == t0.decomposed && soup.blanked == t0.blanked && |soup.nodes| == |found|
        invariant forall i :: 0 <= i < |found| ==>
          soup.nodes[i] == if i in links[..k] then edit(i) else found[i]
      {
        var i := links[k];
        ghost var prev := soup.nodes;
        soup.SetNode(i, edit(i));
        EditedStep(prev, soup.nodes, found, links, k, edit);
        k := k + 1;
      }
      assert links[..k] == links;
      LinksPassIs(conf, t0, links, soup.nodes);
    }

    /** `rewrite_links_for_excludes`; the exception it lets through, if any. */
    method RewriteLinksForExcludes(soup: Soup, toRoot: string, select: (string, Tree) -> seq<nat>) returns (raised: Option<Raised>)
      modifies soup
      ensures var r := ExcludePass(ExcludeConfFor(toRoot), select, old(soup.State()));
              (r.Ok? ==> raised.None? && soup.State() == r.value) && (r.Err? ==> raised == Some(r.error))
    {
      if !exclude {
        return None;
      }
      var conf := ExcludeConfFor(toRoot);
      ghost var goal := ExcludeAll(conf, select, soup.State(), Selectors);
      var d := 0;
      while d < |Selectors|
        invariant 0 <= d <= |Selectors|
        invariant goal == ExcludeAll(conf, select, soup.State(), Selectors[d..])
      {
        var sdef := Selectors[d];
        var links := select(sdef.selector, soup.State());
        ghost var mid := soup.State();
        assert goal == match ExcludeLinks(conf, sdef, mid, links)
                       case Err(e) => Err(e)
                       case Ok(t1) => ExcludeAll(conf, select, t1, Selectors[d + 1..]);
        raised := ExcludeSelected(soup, conf, sdef, links);
        if raised.Some? {
          return;
        }
        d := d + 1;
      }
      return None;
    }

    /** The links one selector picked, in order, until one raises. */
    static method ExcludeSelected(soup: Soup, conf: ExcludeConf, sdef: SelectorDef, links: seq<nat>) returns (raised: Option<Raised>)
      modifies soup
      ensures var r := ExcludeLinks(conf, sdef, old(soup.State()), links);
              (r.Ok? ==> raised.None? && soup.State() == r.value) && (r.Err? ==> raised == Some(r.error))
    {
      ghost var start := soup.State();
      var k := 0;
      while k < |links|
        invariant 0 <= k <= |links|
        invariant ExcludeLinks(conf, sdef, start, links) == ExcludeLinks(conf, sdef, soup.State(), links[k..])
      {
        raised := ExcludeOne(soup, conf, sdef, links[k]);
        if raised.Some? {
          return;
        }
        assert links[k..][1..] == links[k + 1..];
        k := k + 1;
      }
      return None;
    }

    /** One selected link: `remove_link_for_exclusion` if it points at an excluded page. */
    static method ExcludeOne(soup: Soup, conf: ExcludeConf, sdef: SelectorDef, link: nat) returns (raised: Option<Raised>)
      modifies soup
      ensures var r := ExcludeLink(conf, sdef, old(soup.State()), link);
              (r.Ok? ==> raised.None? && soup.State() == r.value) && (r.Err? ==> raised == Some(r.error))
    {
      if link >= |soup.nodes| {
        return None;
      }
      if Destroyed(soup.State(), link) {
        return Some(TypeError);
      }
      var n := soup.nodes[link];
      if n.Text? {
        return Some(AttributeError);
      }
      if "href" !in n.attrs {
        return Some(KeyError);
      }
      if !PointsAtExcluded(conf, sdef.forCategory, conf.lib.unquote(n.attrs["href"])) {
        return None;
      }
      if sdef.clearParentPreviousSibling {
        var p := ParentOf(soup.State(), link);
        if p.None? {
          return Some(AttributeError);
        }
        var k := PreviousSibling(soup.State(), p.value);
        if k.None? {
          return Some(AttributeError);
        }
        soup.ReplaceWithEmpty(k.value);
      }
      if sdef.targetIsParent {
        var p := ParentOf(soup.State(), link);
        if p.None? {
          return Some(AttributeError);
        }
        soup.Decompose(p.value);
      } else {
        soup.Decompose(link);
      }
      return None;
    }

    /** `rewrite_pictures`. */
    static method RewritePictures(soup: Soup)
      modifies soup
      ensures soup.State() == PicturesFrom(old(soup.State()), FindAll(old(soup.State()), PictureTest()))
    {
      var pics := FindAll(soup.State(), PictureTest());
      ghost var goal := PicturesFrom(soup.State(), pics);
      var k := 0;
      while k < |pics|
        invariant 0 <= k <= |pics|
        invariant goal == PicturesFrom(soup.State(), pics[k..])
      {
        ghost var before := soup.State();
        if HasImgBelow(soup.State(), pics[k]) {
          SweepContents(soup, Contents(soup.State(), pics[k]));
        }
        assert soup.State() == PictureStep(before, pics[k]);
        assert pics[k..][1..] == pics[k + 1..];
        k := k + 1;
      }
    }

    /** `for child in picture.contents: ... child.decompose()`, over the list the removals shrink. */
    static method SweepContents(soup: Soup, contents: seq<nat>)
      modifies soup
      ensures soup.State() == old(soup.State()).(decomposed := old(soup.decomposed) + Swept(old(soup.State()), contents))
    {
      var before := soup.State();
      var list := contents;
      var i := 0;
      while i < |list|
        invariant i <= |list| + 1
        invariant soup.nodes == before.nodes && soup.blanked == before.blanked
        invariant soup.decomposed + Swept(before, From(list, i)) == before.decomposed + Swept(before, contents)
        decreases |list| + 1 - i
      {
        var child := list[i];
        if Removable(before, child) {
          SweptRemoves(before, list, i);
          soup.Decompose(child);
          list := list[..i] + list[i + 1..];
        } else {
          SweptKeeps(before, list, i);
        }
        i := i + 1;
      }
      assert From(list, i) == [];
    }

    /** One `<img>` of `rewrite_images`: its attributes edited and its URL deferred. */
    static method RewriteImage(soup: Soup, imager: Images.Imager, found: seq<Node>, i: nat, toRoot: string)
      requires i < |found| == |soup.nodes| && IsImg(found[i]) && imager.Valid()
      modifies soup, imager
      ensures imager.Valid()
      ensures soup.nodes == old(soup.nodes)[i := RewrittenImg(imager.lib, imager.mainUrl, toRoot, found, i)]
      ensures soup.decomposed == old(soup.decomposed) && soup.blanked == old(soup.blanked)
      ensures imager.State() == if DeferredSrc(found, i).Some?
                                then Images.DeferLedger(imager.lib, imager.mainUrl, old(imager.State()), DeferredSrc(found, i).value, None)
                                else old(imager.State())
      ensures imager.aborted == old(imager.aborted) && imager.nbDone == old(imager.nbDone)
    {
      var attrs := found[i].attrs;
      if Truthy(attrs, "onload") {
        attrs := attrs - {"onload"};
      }
      if !Truthy(attrs, "src") && !Truthy(attrs, "data-src") {
        soup.SetNode(i, found[i].(attrs := attrs));
        return;
      }
      if Truthy(attrs, "data-src") && !Truthy(attrs, "src") {
        attrs := attrs["src" := attrs["data-src"]] - {"data-src"};
        attrs := attrs - {"data-src-nowebp"};
      }
      if IsInCode(found, i) {
        soup.SetNode(i, found[i].(attrs := attrs));
        return;
      }
      var path := imager.Defer(attrs["src"], None);
      if path.None? {
        attrs := attrs - {"src"};
      } else {
        attrs := attrs["src" := toRoot + path.value];
      }
      soup.SetNode(i, found[i].(attrs := attrs));
    }

    static method RewriteImages(soup: Soup, toRoot: string, imager: Images.Imager)
      requires imager.Valid()
      modifies soup, imager
      ensures imager.Valid()
      ensures soup.State() == ImagesPass(imager.lib, imager.mainUrl, toRoot, old(soup.State()))
      ensures imager.State() == DeferAll(imager.lib, imager.mainUrl, old(imager.State()),
                                         DeferredSrcs(old(soup.nodes), FindAll(old(soup.State()), ImgTest())))
      ensures imager.aborted == old(imager.aborted) && imager.nbDone == old(imager.nbDone)
    {
      ghost var t0 := soup.State();
      var imgs := FindAll(soup.State(), ImgTest());
      // As for links, each image is read against the tree as the pass found it.
      var found := soup.nodes;
      var lib, mainUrl := imager.lib, imager.mainUrl;
      var edit := (i: nat) => if i < |found| && IsImg(found[i]) then RewrittenImg(lib, mainUrl, toRoot, found, i) else Text("", 0);
      ghost var goal := DeferAll(lib, mainUrl, imager.State(), DeferredSrcs(found, imgs));
      var k := 0;
      while k < |imgs|
        invariant 0 <= k <= |imgs|
        invariant imager.Valid() && imager.lib == lib && imager.mainUrl == mainUrl
        invariant imager.aborted == old(imager.aborted) && imager.nbDone == old(imager.nbDone)
        invariant goal == DeferAll(lib, mainUrl, imager.State(), DeferredSrcs(found, imgs[k..]))
        invariant soup.decomposed == t0.decomposed && soup.blanked == t0.blanked && |soup.nodes| == |found|
        invariant forall i :: 0 <= i < |found| ==>
          soup.nodes[i] == if i in imgs[..k] then edit(i) else found[i]
      {
        var i := imgs[k];
        ghost var prev := soup.nodes;
        DeferAllStep(lib, mainUrl, imager.State(), found, imgs, k);
        RewriteImage(soup, imager, found, i, toRoot);
        assert soup.nodes == prev[i := edit(i)];
        EditedStep(prev, soup.nodes, found, imgs, k, edit);
        k := k + 1;
      }
      assert imgs[..k] == imgs;
      ImagesPassIs(lib, mainUrl, toRoot, t0, imgs, soup.nodes);
    }

    /** The middle of `rewrite`: links, exclusions, pictures. */
    method RunPagePasses(soup: Soup, toRoot: string, select: (string, Tree) -> seq<nat>) returns (raised: Option<Raised>)
      modifies soup
      ensures var r := PagePasses(LinkConfFor(toRoot), ExcludeConfFor(toRoot), select, old(soup.State()));
              (r.Ok? ==> raised.None? && soup.State() == r.value) && (r.Err? ==> raised == Some(r.error))
    {
      RewriteLinks(soup, toRoot);
      raised := RewriteLinksForExcludes(soup, toRoot, select);
      if raised.None? {
        RewritePictures(soup);
      }
    }

    /**
     * `rewrite`: an empty page stays empty, one the parser refuses comes back
     * as it was, and any other is rewritten. Parsing is `parsed` here;
     * `str(soup)` is left to the caller.
     */
    method Rewrite(content: string, parsed: Option<Tree>, toRoot: string, select: (string, Tree) -> seq<nat>, imager: Images.Imager)
      returns (r: Output)
      requires imager.Valid()
      modifies imager
      ensures imager.Valid() && imager.aborted == old(imager.aborted) && imager.nbDone == old(imager.nbDone)
      ensures content == "" ==> r == Page("") && imager.State() == old(imager.State())
      ensures content != "" && parsed.None? ==> r == Page(content) && imager.State() == old(imager.State())
      ensures content != "" && parsed.Some? ==>
        var pre := BeforeImages(LinkConfFor(toRoot), ExcludeConfFor(toRoot), select, parsed.value);
        (pre.Err? ==> r == Failed(pre.error) && imager.State() == old(imager.State())) &&
        (pre.Ok? ==> r == Rewritten(ImagesPass(imager.lib, imager.mainUrl, toRoot, pre.value)) &&
                     imager.State() == DeferAll(imager.lib, imager.mainUrl, old(imager.State()),
                                                DeferredSrcs(pre.value.nodes, FindAll(pre.value, ImgTest()))))
    {
      if content == "" {
        return Page("");
      }
      if parsed.None? {
        return Page(content);
      }
      // `if not soup` never fires: a parsed document is always truthy.
      r := RewriteTree(parsed.value, toRoot, select, imager);
    }

    /** `soup.body.unwrap()` then `soup.html.unwrap()`; false where either is missing (the `AttributeError`). */
    static method UnwrapPage(soup: Soup) returns (ok: bool)
      modifies soup
      ensures ok <==> UnwrapBodyHtml(old(soup.State())).Ok?
      ensures ok ==> soup.State() == UnwrapBodyHtml(old(soup.State())).value
    {
      var body := FindFirst(soup.State(), "body");
      if body.None? {
        return false;
      }
      soup.Unwrap(body.value);
      var html := FindFirst(soup.State(), "html");
      if html.None? {
        return false;
      }
      soup.Unwrap(html.value);
      return true;
    }

    /** `rewrite` once the page is parsed: `<body>` and `<html>` unwrapped, then the four passes. */
    method RewriteTree(t: Tree, toRoot: string, select: (string, Tree) -> seq<nat>, imager: Images.Imager)
      returns (r: Output)
      requires imager.Valid()
      modifies imager
      ensures imager.Valid() && imager.aborted == old(imager.aborted) && imager.nbDone == old(imager.nbDone)
      ensures var pre := BeforeImages(LinkConfFor(toRoot), ExcludeConfFor(toRoot), select, t);
        (pre.Err? ==> r == Failed(pre.error) && imager.State() == old(imager.State())) &&
        (pre.Ok? ==> r == Rewritten(ImagesPass(imager.lib, imager.mainUrl, toRoot, pre.value)) &&
                     imager.State() == DeferAll(imager.lib, imager.mainUrl, old(imager.State()),
                                                DeferredSrcs(pre.value.nodes, FindAll(pre.value, ImgTest()))))
    {
      var soup := new Soup(t);
      var unwrappedOk := UnwrapPage(soup);
      if !unwrappedOk {
        return Failed(AttributeError);
      }
      ghost var unwrapped := soup.State();
      ghost var pre := BeforeImages(LinkConfFor(toRoot), ExcludeConfFor(toRoot), select, t);
      assert pre == PagePasses(LinkConfFor(toRoot), ExcludeConfFor(toRoot), select, unwrapped);
      var raised := RunPagePasses(soup, toRoot, select);
      if raised.Some? {
        return Failed(raised.value);
      }
      assert pre == Ok(soup.State());
      RewriteImages(soup, toRoot, imager);
      return Rewritten(soup.State());
    }
  }
}
