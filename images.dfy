/**
 * The image registry of `wikihow2zim/imager.py`: `defer` hands back an
 * archive path at once and submits one `process_image` job per digest;
 * `process_image` fetches the image or takes it from the S3 cache, adds it to
 * the ZIM and re-uploads it when the cache did not have it.
 *
 * The executor is the `jobs` sequence (a submission appends to it); the
 * download and WebP conversion of `get_image_data`, the version probe and the
 * cache lookup are given as their outcomes in an `ImageEnv`.
 */
module Images {
  import opened Wrappers
  import opened PyStr
  import opened Urls
  import opened Media
  import Utf8
  import Digest

  /** The arguments of one submitted `process_image` call. */
  datatype ImageJob = ImageJob(url: ParseResult, path: string, mimetype: string)

  /** The suffix of a default image path: SVG stays SVG, anything else becomes WebP. */
  function ImageSuffix(urlPath: string): (r: string)
    ensures r == ".svg" <==> EndsWith(urlPath, ".svg")
    ensures r == ".svg" || r == ".webp"
  {
    if EndsWith(urlPath, ".svg") then ".svg" else ".webp"
  }

  /** `get_path_for`: the default archive path of an image URL. */
  function GetPathFor(lib: UrlLib, url: ParseResult): (r: string)
    ensures StartsWith(r, "images/") && EndsWith(r, ImageSuffix(url.path))
  {
    var sfx := ImageSuffix(url.path);
    var p := "images/" + Digest.GetDigest(GetUrl(lib, url)) + "-" + NormalizeIdent(lib, Stem(PathName(url.path))) + sfx;
    assert p[..7] == "images/" && p[|p| - |sfx|..] == sfx;
    p
  }

  /** The mimetype `defer` submits for a path. */
  function Mimetype(path: string): (r: string)
    ensures r == "image/svg+xml" <==> EndsWith(path, ".svg")
    ensures r == "image/svg+xml" || r == "image/webp"
  {
    if EndsWith(path, ".svg") then "image/svg+xml" else "image/webp"
  }

  /**
   * The digest of the URL can be read back from its default path, and the
   * path's mimetype is SVG exactly when the URL path ends with ".svg".
   */
  lemma GetPathForShape(lib: UrlLib, url: ParseResult)
    ensures PathDigest("images/", GetPathFor(lib, url)) == Digest.GetDigest(GetUrl(lib, url))
    ensures Mimetype(GetPathFor(lib, url)) == "image/svg+xml" <==> EndsWith(url.path, ".svg")
  {
    var d := Digest.GetDigest(GetUrl(lib, url));
    var stem := NormalizeIdent(lib, Stem(PathName(url.path)));
    var sfx := ImageSuffix(url.path);
    MediaPathShape("images/", d, stem, sfx);
    var p := "images/" + d + "-" + stem + sfx;
    assert p == GetPathFor(lib, url);
    if sfx == ".webp" {
      assert p[|p| - 4..] == ".webp"[1..];
      assert !EndsWith(p, ".svg") by { assert p[|p| - 4..][0] == 'w'; }
    }
  }

  /** Two URLs with distinct digests never share a default path. */
  lemma GetPathForDistinct(lib: UrlLib, u: ParseResult, v: ParseResult)
    requires Digest.GetDigest(GetUrl(lib, u)) != Digest.GetDigest(GetUrl(lib, v))
    ensures GetPathFor(lib, u) != GetPathFor(lib, v)
  {
    GetPathForShape(lib, u);
    GetPathForShape(lib, v);
  }

  predicate IsWebScheme(scheme: string) {
    scheme == "http" || scheme == "https"
  }

  /** The URL `defer` works on: `urlparse(to_url(url))`, or None where that raises or the scheme is not http(s). */
  function DeferTarget(lib: UrlLib, mainUrl: string, url: string): (r: Option<ParseResult>)
    ensures r.Some? <==> lib.urlparse(ToUrl(mainUrl, url)).Some? && IsWebScheme(lib.urlparse(ToUrl(mainUrl, url)).value.scheme)
    ensures r.Some? ==> r == lib.urlparse(ToUrl(mainUrl, url))
  {
    match lib.urlparse(ToUrl(mainUrl, url))
    case None => None
    case Some(u) => if IsWebScheme(u.scheme) then Some(u) else None
  }

  /** The dedup key of a job: the digest of its URL. */
  function JobDigest(lib: UrlLib, job: ImageJob): string {
    Digest.GetDigest(GetUrl(lib, job.url))
  }

  function KeyOf(lib: UrlLib): ImageJob -> string {
    job => JobDigest(lib, job)
  }

  /** The job `defer` submits for a target: the caller's path or the default one, and its mimetype. */
  function JobFor(lib: UrlLib, target: ParseResult, path: Option<string>): (r: ImageJob)
    ensures JobDigest(lib, r) == Digest.GetDigest(GetUrl(lib, target))
    ensures path.Some? ==> r.path == path.value
    ensures path.None? ==> r.path == GetPathFor(lib, target)
    ensures r.mimetype == "image/svg+xml" <==> EndsWith(r.path, ".svg")
  {
    var p := path.GetOr(GetPathFor(lib, target));
    ImageJob(target, p, Mimetype(p))
  }

  /** What `defer` returns. */
  function DeferPath(lib: UrlLib, mainUrl: string, url: string, path: Option<string>): (r: Option<string>)
    ensures r.None? <==> DeferTarget(lib, mainUrl, url).None?
    ensures r.Some? && path.Some? ==> r == path
  {
    match DeferTarget(lib, mainUrl, url)
    case None => None
    case Some(u) => Some(JobFor(lib, u, path).path)
  }

  /** What `defer` does to the registry's bookkeeping. */
  function DeferLedger(lib: UrlLib, mainUrl: string, l: Ledger<ImageJob>, url: string, path: Option<string>): (r: Ledger<ImageJob>)
    // nothing is forgotten; either nothing changes, or one new digest comes with one appended job and one more request
    ensures l.handled <= r.handled
    ensures r == l || (r.handled > l.handled && |r.jobs| == |l.jobs| + 1 && r.jobs[..|l.jobs|] == l.jobs
                       && r.nbRequested == l.nbRequested + 1)
  {
    match DeferTarget(lib, mainUrl, url)
    case None => l
    case Some(u) => Submit(l, Digest.GetDigest(GetUrl(lib, u)), JobFor(lib, u, path))
  }

  /** A URL `defer` accepts: the path it returns and the submission it makes. */
  lemma DeferAccepted(lib: UrlLib, mainUrl: string, l: Ledger<ImageJob>, url: string, path: Option<string>, target: ParseResult)
    requires lib.urlparse(ToUrl(mainUrl, url)) == Some(target) && IsWebScheme(target.scheme)
    ensures DeferPath(lib, mainUrl, url, path) == Some(JobFor(lib, target, path).path)
    ensures DeferLedger(lib, mainUrl, l, url, path) == Submit(l, Digest.GetDigest(GetUrl(lib, target)), JobFor(lib, target, path))
  {
  }

  /** An unparsable or non-http(s) URL gets no path and changes nothing. */
  lemma DeferRejected(lib: UrlLib, mainUrl: string, l: Ledger<ImageJob>, url: string, path: Option<string>)
    requires DeferTarget(lib, mainUrl, url).None?
    ensures DeferPath(lib, mainUrl, url, path).None?
    ensures DeferLedger(lib, mainUrl, l, url, path) == l
  {
  }

  /** A digest already handled: a path is returned, and no job or count is added. */
  lemma DeferRepeat(lib: UrlLib, mainUrl: string, l: Ledger<ImageJob>, url: string, path: Option<string>)
    requires DeferTarget(lib, mainUrl, url).Some?
    requires Digest.GetDigest(GetUrl(lib, DeferTarget(lib, mainUrl, url).value)) in l.handled
    ensures DeferPath(lib, mainUrl, url, path).Some?
    ensures DeferLedger(lib, mainUrl, l, url, path) == l
  {
  }

  /** The first `defer` of a digest records it, counts it and submits exactly one job carrying the returned path. */
  lemma DeferFirst(lib: UrlLib, mainUrl: string, l: Ledger<ImageJob>, url: string, path: Option<string>)
    requires DeferTarget(lib, mainUrl, url).Some?
    requires Digest.GetDigest(GetUrl(lib, DeferTarget(lib, mainUrl, url).value)) !in l.handled
    ensures var l' := DeferLedger(lib, mainUrl, l, url, path);
      && l'.handled == l.handled + {Digest.GetDigest(GetUrl(lib, DeferTarget(lib, mainUrl, url).value))}
      && l'.nbRequested == l.nbRequested + 1
      && |l'.jobs| == |l.jobs| + 1 && l'.jobs[..|l.jobs|] == l.jobs
      && l'.jobs[|l.jobs|].url == DeferTarget(lib, mainUrl, url).value
      && Some(l'.jobs[|l.jobs|].path) == DeferPath(lib, mainUrl, url, path)
  {
  }

  /** `defer` keeps one job per digest, so `nb_requested == |handled|` throughout. */
  lemma DeferValid(lib: UrlLib, mainUrl: string, l: Ledger<ImageJob>, url: string, path: Option<string>)
    requires LedgerValid(l, KeyOf(lib))
    ensures LedgerValid(DeferLedger(lib, mainUrl, l, url, path), KeyOf(lib))
    ensures DeferLedger(lib, mainUrl, l, url, path).nbRequested == |DeferLedger(lib, mainUrl, l, url, path).handled|
  {
    match DeferTarget(lib, mainUrl, url)
    case None =>
    case Some(u) =>
      var job := JobFor(lib, u, path);
      assert KeyOf(lib)(job) == Digest.GetDigest(GetUrl(lib, u));
      SubmitValid(l, KeyOf(lib), Digest.GetDigest(GetUrl(lib, u)), job);
  }

  /**
   * Any later `defer` of a URL whose digest is already in the registry — the
   * same URL, or an Adler-32 collision — submits nothing, whatever path it is given.
   */
  lemma DeferCollision(lib: UrlLib, mainUrl: string, l: Ledger<ImageJob>, u1: string, p1: Option<string>, u2: string, p2: Option<string>)
    requires DeferTarget(lib, mainUrl, u1).Some? && DeferTarget(lib, mainUrl, u2).Some?
    requires Digest.GetDigest(GetUrl(lib, DeferTarget(lib, mainUrl, u1).value))
          == Digest.GetDigest(GetUrl(lib, DeferTarget(lib, mainUrl, u2).value))
    ensures DeferLedger(lib, mainUrl, DeferLedger(lib, mainUrl, l, u1, p1), u2, p2) == DeferLedger(lib, mainUrl, l, u1, p1)
    ensures DeferPath(lib, mainUrl, u2, p2).Some?
  {
  }

  /** Deferring the same URL twice schedules one job. */
  lemma DeferTwice(lib: UrlLib, mainUrl: string, l: Ledger<ImageJob>, url: string, p1: Option<string>, p2: Option<string>)
    ensures DeferLedger(lib, mainUrl, DeferLedger(lib, mainUrl, l, url, p1), url, p2) == DeferLedger(lib, mainUrl, l, url, p1)
  {
    if DeferTarget(lib, mainUrl, url).Some? {
      DeferCollision(lib, mainUrl, l, url, p1, url, p2);
    }
  }

  /**
   * What `process_image` would find: the outcome of `get_image_data` (None:
   * it raises), of the HEAD and GET probes of `get_version_ident_for`, and of
   * the S3 lookup.
   */
  datatype ImageEnv = ImageEnv(image: Option<seq<Utf8.byte>>, head: Option<Headers>, get: Option<Headers>, cache: CacheOutcome)

  /**
   * What one `process_image` run does: the items it adds, the upload it
   * attempts, whether it fetched the source, probed its version and queried
   * the cache, and how it ends.
   */
  datatype Effects = Effects(items: seq<Item>, upload: Option<Upload>, fetched: bool, probed: bool, queried: bool, result: JobResult)

  /** The `process_image` decision tree. */
  function ImageEffects(lib: UrlLib, aborted: bool, s3Url: string, encoderVersion: string, job: ImageJob, env: ImageEnv): (r: Effects)
    // once aborted, nothing happens at all
    ensures aborted ==> r == Effects([], None, false, false, false, Aborted)
    ensures !aborted ==> r.result != Aborted
    // every run that does not raise returns the job's path
    ensures !aborted && r.result != Raised ==> r.result == Done(job.path)
    // at most one item, always at the job's path with its mimetype
    ensures |r.items| <= 1
    ensures forall k :: 0 <= k < |r.items| ==> r.items[k].path == job.path && r.items[k].mimetype == job.mimetype
    // without S3: exactly one item when the fetch works, the exception escapes otherwise; the cache is never touched
    ensures !aborted && s3Url == "" ==> !r.probed && !r.queried && r.upload.None? && r.fetched
    ensures !aborted && s3Url == "" ==> (|r.items| == 1 <==> env.image.Some?)
    ensures r.result == Raised <==> !aborted && s3Url == "" && env.image.None?
    // with S3 and no version: nothing added, nothing uploaded
    ensures !aborted && s3Url != "" && VersionIdentFor(env.head, env.get).None? ==>
      r == Effects([], None, false, true, false, Done(job.path))
    // a cache hit: the cached bytes, no fetch, no upload
    ensures !aborted && s3Url != "" && VersionIdentFor(env.head, env.get).Some? && env.cache.Hit? ==>
      r.items == [Item(job.path, Bytes(env.cache.data), job.mimetype)] && !r.fetched && r.upload.None?
    // a miss: an item exactly when the fetch works
    ensures !aborted && s3Url != "" && VersionIdentFor(env.head, env.get).Some? && !env.cache.Hit? ==>
      r.fetched && (|r.items| == 1 <==> env.image.Some?) && r.result == Done(job.path)
    // an item from a fetch holds the fetched bytes
    ensures |r.items| == 1 && r.fetched ==> env.image.Some? && r.items[0].content == Bytes(env.image.value)
    // an upload only after NotFound and a successful fetch, of the item's own bytes, under the URL's key
    ensures r.upload.Some? <==>
      !aborted && s3Url != "" && VersionIdentFor(env.head, env.get).Some? && env.cache.NotFound? && env.image.Some?
    ensures r.upload.Some? ==>
      && r.upload.value.key == S3Key(GetUrl(lib, job.url))
      && r.upload.value.meta == Meta(VersionIdentFor(env.head, env.get).value, encoderVersion)
      && |r.items| == 1 && r.upload.value.content == r.items[0].content
  {
    if aborted then Effects([], None, false, false, false, Aborted)
    else if s3Url == "" then
      match env.image
      case None => Effects([], None, true, false, false, Raised)
      case Some(data) => Effects([Item(job.path, Bytes(data), job.mimetype)], None, true, false, false, Done(job.path))
    else
      match VersionIdentFor(env.head, env.get)
      case None => Effects([], None, false, true, false, Done(job.path))
      case Some(ident) =>
        var key := S3Key(GetUrl(lib, job.url));
        var meta := Meta(ident, encoderVersion);
        match env.cache
        case Hit(data) => Effects([Item(job.path, Bytes(data), job.mimetype)], None, false, true, true, Done(job.path))
        case _ =>
          match env.image
          case None => Effects([], None, true, true, true, Done(job.path))
          case Some(data) =>
            Effects([Item(job.path, Bytes(data), job.mimetype)],
                    if env.cache.NotFound? then Some(Upload(key, Bytes(data), meta)) else None,
                    true, true, true, Done(job.path))
  }

  /** The image registry. */
  class Imager {
    const lib: UrlLib
    const mainUrl: string
    var aborted: bool
    var handled: set<string>
    var nbRequested: nat
    var nbDone: nat
    var jobs: seq<ImageJob>

    function State(): Ledger<ImageJob>
      reads this
    {
      Ledger(handled, nbRequested, jobs)
    }

    ghost predicate Valid()
      reads this
    {
      LedgerValid(State(), KeyOf(lib))
    }

    constructor(lib: UrlLib, mainUrl: string)
      ensures Valid()
      ensures this.lib == lib && this.mainUrl == mainUrl
      ensures !aborted && handled == {} && nbRequested == 0 && nbDone == 0 && jobs == []
    {
      this.lib := lib;
      this.mainUrl := mainUrl;
      aborted := false;
      handled := {};
      nbRequested := 0;
      nbDone := 0;
      jobs := [];
    }

    /** `abort`: later jobs do nothing. */
    method Abort()
      modifies this
      ensures aborted
      ensures handled == old(handled) && nbRequested == old(nbRequested) && nbDone == old(nbDone) && jobs == old(jobs)
    {
      aborted := true;
    }

    /** `once_done`: the callback run once an item is written. */
    method OnceDone()
      modifies this
      ensures nbDone == old(nbDone) + 1
      ensures aborted == old(aborted) && State() == old(State())
    {
      nbDone := nbDone + 1;
    }

    /** `defer`: the archive path of an image, its job submitted unless its digest is already handled. */
    method Defer(url: string, path: Option<string>) returns (r: Option<string>)
      requires Valid()
      modifies this
      ensures Valid()
      ensures r == DeferPath(lib, mainUrl, url, path)
      ensures State() == DeferLedger(lib, mainUrl, old(State()), url, path)
      ensures aborted == old(aborted) && nbDone == old(nbDone)
    {
      ghost var before := State();
      var parsed := lib.urlparse(ToUrl(mainUrl, url));
      if parsed.None? {
        return None;
      }
      var target := parsed.value;
      if !IsWebScheme(target.scheme) {
        return None;
      }
      var digest := Digest.GetDigest(GetUrl(lib, target));
      // the path (the caller's or the default one) and its mimetype
      var job := JobFor(lib, target, path);
      DeferAccepted(lib, mainUrl, before, url, path, target);
      Record(digest, job);
      return Some(job.path);
    }

    /** The tail of `defer`: a handled digest changes nothing, a new one is recorded, counted and its job submitted. */
    method Record(digest: string, job: ImageJob)
      requires Valid() && JobDigest(lib, job) == digest
      modifies this
      ensures Valid()
      ensures State() == Submit(old(State()), digest, job)
      ensures aborted == old(aborted) && nbDone == old(nbDone)
    {
      SubmitValid(State(), KeyOf(lib), digest, job);
      if digest in handled {
        return;
      }
      handled := handled + {digest};
      nbRequested := nbRequested + 1;
      jobs := jobs + [job];
    }

    /** `process_image`: adds the job's item to the creator and reports the upload it attempts. */
    method ProcessImage(s3Url: string, encoderVersion: string, job: ImageJob, env: ImageEnv, creator: Creator)
      returns (r: JobResult, upload: Option<Upload>)
      modifies creator
      ensures creator.items == old(creator.items) + ImageEffects(lib, aborted, s3Url, encoderVersion, job, env).items
      ensures upload == ImageEffects(lib, aborted, s3Url, encoderVersion, job, env).upload
      ensures r == ImageEffects(lib, aborted, s3Url, encoderVersion, job, env).result
    {
      upload := None;
      if aborted {
        return Aborted, None;
      }
      if s3Url == "" {
        if env.image.None? {
          return Raised, None;
        }
        creator.AddItemFor(Item(job.path, Bytes(env.image.value), job.mimetype));
        return Done(job.path), None;
      }
      var ident := VersionIdentFor(env.head, env.get);
      if ident.None? {
        return Done(job.path), None;
      }
      var key := S3Key(GetUrl(lib, job.url));
      var meta := Meta(ident.value, encoderVersion);
      var downloadFailed := false;
      match env.cache {
        case NotFound =>
        case Failed =>
          downloadFailed := true;
        case Hit(data) =>
          creator.AddItemFor(Item(job.path, Bytes(data), job.mimetype));
          return Done(job.path), None;
      }
      if env.image.None? {
        return Done(job.path), None;
      }
      var data := env.image.value;
      creator.AddItemFor(Item(job.path, Bytes(data), job.mimetype));
      if !downloadFailed {
        upload := Some(Upload(key, Bytes(data), meta));
      }
      return Done(job.path), upload;
    }
  }
}
