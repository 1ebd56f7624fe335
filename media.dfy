/**
 * What the image and video registries share: `pathlib` name, stem and suffix,
 * the S3 key derivation, the ZIM creator that items are added to, the cache
 * outcomes, and the ledger that schedules one job per digest.
 */
module Media {
  import opened Wrappers
  import opened PyStr
  import Utf8
  import Decimal

  /** `PurePosixPath(p).name`: the last component, ignoring empty and "." components. */
  function PathName(p: string): (r: string)
    ensures '/' !in r && r != "."
  {
    LastPart(Split(p, '/'))
  }

  function LastPart(parts: seq<string>): (r: string)
    requires forall k :: 0 <= k < |parts| ==> '/' !in parts[k]
    ensures '/' !in r && r != "."
    ensures r == "" || r in parts
  {
    if |parts| == 0 then ""
    else
      var last := parts[|parts| - 1];
      if last == "" || last == "." then LastPart(parts[..|parts| - 1]) else last
  }

  /** A plain file name is its own name. */
  lemma PathNameOfName(name: string)
    requires '/' !in name && name != "."
    ensures PathName(name) == name
  {
  }

  /** The name of `dir/name` is `name`, whatever the directory. */
  lemma PathNameInDir(dir: string, name: string)
    requires '/' !in name && name != "" && name != "."
    ensures PathName(dir + "/" + name) == name
  {
    var parts := Split(dir, '/');
    SplitSnoc(dir, name);
  }

  lemma {:induction false} SplitSnoc(dir: string, name: string)
    requires '/' !in name
    ensures Split(dir + "/" + name, '/') == Split(dir, '/') + [name]
    decreases |dir|
  {
    var s := dir + "/" + name;
    var i := IndexOfChar(s, '/');
    if '/' in dir {
      var j := IndexOfChar(dir, '/');
      assert s[j] == '/';
      assert i == j by {
        assert forall k :: 0 <= k < j ==> s[k] == dir[k];
      }
      assert s[..i] == dir[..j];
      assert s[i + 1..] == dir[j + 1..] + "/" + name;
      SplitSnoc(dir[j + 1..], name);
    } else {
      assert s[|dir|] == '/';
      assert i == |dir| by {
        assert forall k :: 0 <= k < |dir| ==> s[k] == dir[k];
      }
      assert s[..i] == dir;
      assert s[i + 1..] == name;
    }
  }

  /** `name.rfind('.')`. */
  function LastDot(name: string): (r: Option<nat>)
    ensures r.Some? ==> r.value < |name| && name[r.value] == '.' && '.' !in name[r.value + 1..]
    ensures r.None? ==> '.' !in name
  {
    if |name| == 0 then None
    else if name[|name| - 1] == '.' then Some(|name| - 1)
    else
      var r := LastDot(name[..|name| - 1]);
      assert r.Some? ==> name[r.value + 1..] == name[..|name| - 1][r.value + 1..] + [name[|name| - 1]];
      assert r.None? ==> name == name[..|name| - 1] + [name[|name| - 1]];
      r
  }

  /** Where `pathlib` splits a name into stem and suffix: a dot that is neither first nor last. */
  function SuffixStart(name: string): Option<nat> {
    match LastDot(name)
    case Some(i) => if 0 < i < |name| - 1 then Some(i) else None
    case None => None
  }

  /** `PurePath(name).suffix`: empty, or a dot and a dot-free tail that ends the name. */
  function Suffix(name: string): (r: string)
    ensures EndsWith(name, r)
    ensures r == "" || (|r| >= 2 && r[0] == '.' && '.' !in r[1..])
  {
    match SuffixStart(name)
    case Some(i) =>
      assert name[i..][1..] == name[i + 1..];
      name[i..]
    case None => ""
  }

  /** `PurePath(name).stem`: with the suffix it gives back the name, and it is never empty when there is a suffix. */
  function Stem(name: string): (r: string)
    ensures r + Suffix(name) == name
    ensures Suffix(name) != "" ==> r != ""
  {
    match SuffixStart(name)
    case Some(i) => name[..i]
    case None => name
  }

  /** `stem + "." + ext` splits back into that stem and suffix when `ext` holds no dot. */
  lemma SplitName(stem: string, ext: string)
    requires stem != "" && '.' !in ext && ext != ""
    ensures Suffix(stem + "." + ext) == "." + ext
    ensures Stem(stem + "." + ext) == stem
  {
    var name := stem + "." + ext;
    assert name[|stem|] == '.';
    var d := LastDot(name);
    assert d.Some?;
    var j := d.value;
    assert forall k :: j < k < |name| ==> name[k] != '.' by {
      forall k | j < k < |name|
        ensures name[k] != '.'
      {
        assert name[j + 1..][k - j - 1] == name[k];
      }
    }
    assert forall k :: |stem| < k < |name| ==> name[k] != '.' by {
      forall k | |stem| < k < |name|
        ensures name[k] != '.'
      {
        assert name[k] == ext[k - |stem| - 1];
      }
    }
    assert j == |stem|;
    assert name[|stem|..] == "." + ext;
    assert name[..|stem|] == stem;
  }

  /** `re.sub(r"^(https?)://", r"\1/", url)`: the S3 key of a URL. */
  function S3Key(url: string): (r: string)
    ensures StartsWith(url, "http://") ==> r == "http/" + url[7..]
    ensures StartsWith(url, "https://") ==> r == "https/" + url[8..]
    ensures !StartsWith(url, "http://") && !StartsWith(url, "https://") ==> r == url
  {
    assert StartsWith(url, "http://") ==> url[..7][4] == ':';
    assert StartsWith(url, "https://") ==> url[..8][4] == 's';
    if StartsWith(url, "http://") then "http/" + url[7..]
    else if StartsWith(url, "https://") then "https/" + url[8..]
    else url
  }

  /** Keys never start with a scheme separator again, so deriving a key twice changes nothing. */
  lemma S3KeyIdempotent(url: string)
    ensures S3Key(S3Key(url)) == S3Key(url)
  {
    var k := S3Key(url);
    if StartsWith(url, "http://") || StartsWith(url, "https://") {
      assert k[4] == '/' || k[5] == '/';
      assert !StartsWith(k, "http://") by { assert |k| >= 5 && k[4] != ':'; }
      assert !StartsWith(k, "https://") by {
        if StartsWith(url, "http://") { assert k[4] == '/'; } else { assert k[5] == '/'; }
      }
    }
  }

  predicate IsWebUrl(url: string) {
    StartsWith(url, "http://") || StartsWith(url, "https://")
  }

  /** Among http(s) URLs the key is injective: the scheme is recoverable from the key. */
  lemma S3KeyInjective(u: string, v: string)
    requires IsWebUrl(u) && IsWebUrl(v)
    requires S3Key(u) == S3Key(v)
    ensures u == v
  {
    var k := S3Key(u);
    assert k[4] == '/' <==> StartsWith(u, "http://");
    assert S3Key(v)[4] == '/' <==> StartsWith(v, "http://");
    if StartsWith(u, "http://") {
      assert u == "http://" + k[5..];
      assert v == "http://" + k[5..];
    } else {
      assert u == "https://" + k[6..];
      assert v == "https://" + k[6..];
    }
  }

  /** Outside http(s) URLs it is not: "http://x" and "http/x" share a key. */
  lemma S3KeyCollision()
    ensures S3Key("http://x") == S3Key("http/x") == "http/x"
  {
    assert StartsWith("http://x", "http://");
    assert "http://x"[7..] == "x";
    assert !StartsWith("http/x", "http://") by { assert "http/x"[4] != ':'; }
    assert !StartsWith("http/x", "https://");
  }

  /** The digest a media path carries: what follows its directory, up to the first "-". */
  function PathDigest(dir: string, path: string): string {
    if StartsWith(path, dir) then TakeUntil(path[|dir|..], '-') else ""
  }

  /** A path `dir + digest + "-" + rest` gives back its digest, starts with its directory and ends with its suffix. */
  lemma MediaPathShape(dir: string, digest: string, stem: string, suffix: string)
    requires Decimal.AllDigits(digest)
    ensures StartsWith(dir + digest + "-" + stem + suffix, dir)
    ensures EndsWith(dir + digest + "-" + stem + suffix, suffix)
    ensures PathDigest(dir, dir + digest + "-" + stem + suffix) == digest
  {
    var p := dir + digest + "-" + stem + suffix;
    assert p[..|dir|] == dir;
    var rest := p[|dir|..];
    assert rest == digest + "-" + stem + suffix;
    assert '-' !in digest by {
      assert forall k :: 0 <= k < |digest| ==> digest[k] != '-';
    }
    assert rest[|digest|] == '-';
    var t := TakeUntil(rest, '-');
    assert forall k :: 0 <= k < |t| ==> rest[k] != '-' by {
      forall k | 0 <= k < |t|
        ensures rest[k] != '-'
      {
        assert t[k] == rest[k];
      }
    }
    assert |t| >= |digest| by {
      assert forall k :: 0 <= k < |digest| ==> rest[k] == digest[k];
    }
    assert p[|p| - |suffix|..] == suffix;
  }

  /** `[x for x in s if p(x)]`. */
  function Filter<T>(s: seq<T>, p: T -> bool): (r: seq<T>)
    ensures |r| <= |s|
    ensures forall k :: 0 <= k < |r| ==> p(r[k]) && r[k] in s
    ensures forall k :: 0 <= k < |s| && p(s[k]) ==> s[k] in r
  {
    if |s| == 0 then []
    else
      var rest := Filter(s[1..], p);
      assert forall k :: 1 <= k < |s| ==> s[k] == s[1..][k - 1];
      (if p(s[0]) then [s[0]] else []) + rest
  }

  /** The head of a filtered sequence is the first element that passes; there is one exactly when some element passes. */
  lemma {:induction false} FilterFirst<T>(s: seq<T>, p: T -> bool)
    ensures |Filter(s, p)| > 0 <==> exists i :: 0 <= i < |s| && p(s[i])
    ensures |Filter(s, p)| > 0 ==>
      exists i :: 0 <= i < |s| && s[i] == Filter(s, p)[0] && forall j :: 0 <= j < i ==> !p(s[j])
  {
    if |Filter(s, p)| > 0 {
      var i := FilterHead(s, p);
      assert p(s[i]);
    }
    if exists i :: 0 <= i < |s| && p(s[i]) {
      var i :| 0 <= i < |s| && p(s[i]);
      assert s[i] in Filter(s, p);
    }
  }

  /** The index in `s` of the head of a non-empty `Filter(s, p)`: nothing before it passes. */
  lemma {:induction false} FilterHead<T>(s: seq<T>, p: T -> bool) returns (i: nat)
    requires |Filter(s, p)| > 0
    ensures i < |s| && s[i] == Filter(s, p)[0] && forall j :: 0 <= j < i ==> !p(s[j])
  {
    var tail := s[1..];
    if p(s[0]) {
      assert Filter(s, p) == [s[0]] + Filter(tail, p);
      i := 0;
    } else {
      assert Filter(s, p) == Filter(tail, p);
      var k := FilterHead(tail, p);
      i := k + 1;
      assert s[i] == tail[k];
      forall j | 0 <= j < i
        ensures !p(s[j])
      {
        if j > 0 { assert s[j] == tail[j - 1]; }
      }
    }
  }

  /** What an item's data is: bytes in memory, or a file to read (and optionally delete). */
  datatype Content = Bytes(data: seq<Utf8.byte>) | FilePath(fpath: string, deleteFpath: bool)

  /** One `add_item_for` call. */
  datatype Item = Item(path: string, content: Content, mimetype: string)

  /** The ZIM creator: the items added so far, in order. */
  class Creator {
    var items: seq<Item>

    constructor()
      ensures items == []
    {
      items := [];
    }

    /** `add_item_for`. */
    method AddItemFor(item: Item)
      modifies this
      ensures items == old(items) + [item]
    {
      items := items + [item];
    }
  }

  /** How `download_matching_fileobj` ends: the cached bytes, `NotFoundError`, or another exception. */
  datatype CacheOutcome = Hit(data: seq<Utf8.byte>) | NotFound | Failed

  /** The metadata an S3 object is matched against and uploaded with. */
  datatype Meta = Meta(ident: string, encoderVersion: string)

  /** One upload attempt to the S3 cache (its own failure is swallowed). */
  datatype Upload = Upload(key: string, content: Content, meta: Meta)

  /** What a `process_*` job ends with: nothing (aborted), the path, or an exception that escapes. */
  datatype JobResult = Aborted | Done(path: string) | Raised

  /**
   * The registry bookkeeping shared by `Imager.defer` and `VideoGrabber.defer`:
   * the digests handled, the `nb_requested` counter and the jobs submitted.
   */
  datatype Ledger<J> = Ledger(handled: set<string>, nbRequested: nat, jobs: seq<J>)

  /**
   * One job per digest: `nb_requested` counts the handled digests and the
   * jobs, every job's digest is handled and no two jobs share a digest.
   */
  predicate LedgerValid<J>(l: Ledger<J>, key: J -> string) {
    && l.nbRequested == |l.handled|
    && |l.jobs| == l.nbRequested
    && (forall i :: 0 <= i < |l.jobs| ==> key(l.jobs[i]) in l.handled)
    && (forall i, j :: 0 <= i < j < |l.jobs| ==> key(l.jobs[i]) != key(l.jobs[j]))
  }

  /** The tail of `defer`: a handled digest changes nothing, a new one is recorded and its job submitted. */
  function Submit<J>(l: Ledger<J>, digest: string, job: J): (r: Ledger<J>)
    ensures digest in r.handled
  {
    if digest in l.handled then l
    else Ledger(l.handled + {digest}, l.nbRequested + 1, l.jobs + [job])
  }

  /** Submitting keeps the ledger valid, provided the job is the digest's own. */
  lemma SubmitValid<J>(l: Ledger<J>, key: J -> string, digest: string, job: J)
    requires LedgerValid(l, key) && key(job) == digest
    ensures LedgerValid(Submit(l, digest, job), key)
  {
    if digest !in l.handled {
      var r := Submit(l, digest, job);
      assert |l.handled + {digest}| == |l.handled| + 1;
      forall i | 0 <= i < |r.jobs|
        ensures key(r.jobs[i]) in r.handled
      {
        if i < |l.jobs| { assert r.jobs[i] == l.jobs[i]; }
      }
      forall i, j | 0 <= i < j < |r.jobs|
        ensures key(r.jobs[i]) != key(r.jobs[j])
      {
        assert r.jobs[i] == l.jobs[i];
        if j < |l.jobs| { assert r.jobs[j] == l.jobs[j]; }
      }
    }
  }

  /** Submitting a digest again, with any job, changes nothing. */
  lemma SubmitIdempotent<J>(l: Ledger<J>, digest: string, job: J, again: J)
    ensures Submit(Submit(l, digest, job), digest, again) == Submit(l, digest, job)
  {
  }

  /** A submission adds one job exactly when its digest is new. */
  lemma SubmitGrows<J>(l: Ledger<J>, digest: string, job: J)
    ensures |Submit(l, digest, job).jobs| == |l.jobs| + (if digest in l.handled then 0 else 1)
    ensures Submit(l, digest, job).jobs[..|l.jobs|] == l.jobs
  {
  }

  /** The digests of the jobs of a sequence. */
  function JobKeys<J>(jobs: seq<J>, key: J -> string): set<string> {
    set i | 0 <= i < |jobs| :: key(jobs[i])
  }

  /** In a valid ledger the handled digests are exactly the submitted jobs' digests. */
  lemma {:induction false} HandledAreJobKeys<J>(l: Ledger<J>, key: J -> string)
    requires LedgerValid(l, key)
    ensures l.handled == JobKeys(l.jobs, key)
  {
    var ks := JobKeys(l.jobs, key);
    assert ks <= l.handled;
    DistinctKeysCount(l.jobs, key);
    SubsetSameSize(ks, l.handled);
  }

  lemma {:induction false} DistinctKeysCount<J>(jobs: seq<J>, key: J -> string)
    requires forall i, j :: 0 <= i < j < |jobs| ==> key(jobs[i]) != key(jobs[j])
    ensures |JobKeys(jobs, key)| == |jobs|
  {
    if |jobs| > 0 {
      var init := jobs[..|jobs| - 1];
      DistinctKeysCount(init, key);
      var last := key(jobs[|jobs| - 1]);
      assert JobKeys(jobs, key) == JobKeys(init, key) + {last} by {
        forall x | x in JobKeys(jobs, key)
          ensures x in JobKeys(init, key) + {last}
        {
          var i :| 0 <= i < |jobs| && key(jobs[i]) == x;
          if i < |init| { assert init[i] == jobs[i]; }
        }
        forall x | x in JobKeys(init, key)
          ensures x in JobKeys(jobs, key)
        {
          var i :| 0 <= i < |init| && key(init[i]) == x;
          assert jobs[i] == init[i];
        }
      }
      assert forall i :: 0 <= i < |init| ==> key(init[i]) != last by {
        forall i | 0 <= i < |init|
          ensures key(init[i]) != last
        {
          assert init[i] == jobs[i];
        }
      }
      assert last !in JobKeys(init, key);
    }
  }

  lemma {:induction false} SubsetSameSize(a: set<string>, b: set<string>)
    requires a <= b && |a| == |b|
    ensures a == b
    decreases |a|
  {
    if |a| > 0 {
      var x :| x in a;
      assert |a - {x}| == |a| - 1 && |b - {x}| == |b| - 1;
      SubsetSameSize(a - {x}, b - {x});
      assert a == (a - {x}) + {x} && b == (b - {x}) + {x};
    } else {
      assert |b| == 0;
    }
  }
}
