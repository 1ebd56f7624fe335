/**
 * The video registry of `wikihow2zim/videos.py`: the same one-job-per-digest
 * `defer` as images, a `get_url` that normalises YouTube links, the choice of
 * the downloaded file and of whether to re-encode it, and the `process_video`
 * decision tree.
 *
 * `tld.get_fld` and `normalize_youtube_url` are the uninterpreted fields of a
 * `VideoLib`; the youtube-dl download, the directory listing it leaves and the
 * ffmpeg re-encode are given as their outcomes in a `VideoFetch`.
 */
module Videos {
  import opened Wrappers
  import opened PyStr
  import opened Urls
  import opened Media
  import Utf8
  import Digest

  datatype VideoLib = VideoLib(
    getFld: string -> Option<string>,  // None where get_fld raises
    normalizeYoutubeUrl: string -> Option<string>)  // None where normalize_youtube_url raises

  /** The outcome of `get_url`: the parsed URL and whether it is a YouTube one. */
  datatype VideoTarget = VideoTarget(url: ParseResult, isYoutube: bool)

  /** `get_url`: YouTube links are normalised before parsing; None where `get_fld`, `normalize_youtube_url` or `urlparse` raises. */
  function GetVideoUrl(lib: UrlLib, vlib: VideoLib, url: string): (r: Option<VideoTarget>)
    ensures r.Some? ==> (r.value.isYoutube <==> vlib.getFld(url) == Some("youtube.com"))
    ensures r.Some? && r.value.isYoutube ==>
      vlib.normalizeYoutubeUrl(url).Some? && lib.urlparse(vlib.normalizeYoutubeUrl(url).value) == Some(r.value.url)
    ensures r.Some? && !r.value.isYoutube ==> lib.urlparse(url) == Some(r.value.url)
    ensures vlib.getFld(url).None? ==> r.None?
    ensures vlib.getFld(url) == Some("youtube.com") && vlib.normalizeYoutubeUrl(url).None? ==> r.None?
    ensures r.None? && vlib.getFld(url).Some? && vlib.getFld(url) != Some("youtube.com") ==> lib.urlparse(url).None?
    ensures r.None? && vlib.getFld(url) == Some("youtube.com") && vlib.normalizeYoutubeUrl(url).Some? ==>
      lib.urlparse(vlib.normalizeYoutubeUrl(url).value).None?
  {
    match vlib.getFld(url)
    case None => None
    case Some(fld) =>
      var isYoutube := fld == "youtube.com";
      var u := if isYoutube then vlib.normalizeYoutubeUrl(url) else Some(url);
      match u
      case None => None
      case Some(v) =>
        match lib.urlparse(v)
        case None => None
        case Some(parsed) => Some(VideoTarget(parsed, isYoutube))
  }

  /** `get_path_for`: the default archive path of a video URL, always WebM. */
  function GetPathFor(lib: UrlLib, url: ParseResult): (r: string)
    ensures StartsWith(r, "videos/") && EndsWith(r, ".webm")
  {
    var p := "videos/" + Digest.GetDigest(GetUrl(lib, url)) + "-" + NormalizeIdent(lib, Stem(PathName(url.path))) + ".webm";
    assert p[..7] == "videos/" && p[|p| - 5..] == ".webm";
    p
  }

  /** The digest of the URL can be read back from its default path. */
  lemma GetPathForShape(lib: UrlLib, url: ParseResult)
    ensures PathDigest("videos/", GetPathFor(lib, url)) == Digest.GetDigest(GetUrl(lib, url))
  {
    var d := Digest.GetDigest(GetUrl(lib, url));
    MediaPathShape("videos/", d, NormalizeIdent(lib, Stem(PathName(url.path))), ".webm");
  }

  /** The arguments of one submitted `process_video` call. */
  datatype VideoJob = VideoJob(url: ParseResult, isYoutube: bool, path: string)

  predicate IsWebScheme(scheme: string) {
    scheme == "http" || scheme == "https"
  }

  /** The URL `defer` works on: `get_url(url)`, or None where that raises or the scheme is not http(s). */
  function DeferTarget(lib: UrlLib, vlib: VideoLib, url: string): (r: Option<VideoTarget>)
    ensures r.Some? <==> GetVideoUrl(lib, vlib, url).Some? && IsWebScheme(GetVideoUrl(lib, vlib, url).value.url.scheme)
    ensures r.Some? ==> r == GetVideoUrl(lib, vlib, url)
  {
    match GetVideoUrl(lib, vlib, url)
    case None => None
    case Some(t) => if IsWebScheme(t.url.scheme) then Some(t) else None
  }

  /** The dedup key of a job: the digest of its URL. */
  function JobDigest(lib: UrlLib, job: VideoJob): string {
    Digest.GetDigest(GetUrl(lib, job.url))
  }

  function KeyOf(lib: UrlLib): VideoJob -> string {
    job => JobDigest(lib, job)
  }

  /** The job `defer` submits for a target: the caller's path or the default one. */
  function JobFor(lib: UrlLib, target: VideoTarget, path: Option<string>): (r: VideoJob)
    ensures JobDigest(lib, r) == Digest.GetDigest(GetUrl(lib, target.url))
    ensures r.isYoutube == target.isYoutube
    ensures path.Some? ==> r.path == path.value
    ensures path.None? ==> r.path == GetPathFor(lib, target.url)
  {
    VideoJob(target.url, target.isYoutube, path.GetOr(GetPathFor(lib, target.url)))
  }

  /** What `defer` returns. */
  function DeferPath(lib: UrlLib, vlib: VideoLib, url: string, path: Option<string>): (r: Option<string>)
    ensures r.None? <==> DeferTarget(lib, vlib, url).None?
    ensures r.Some? && path.Some? ==> r == path
  {
    match DeferTarget(lib, vlib, url)
    case None => None
    case Some(t) => Some(JobFor(lib, t, path).path)
  }

  /** What `defer` does to the registry's bookkeeping. */
  function DeferLedger(lib: UrlLib, vlib: VideoLib, l: Ledger<VideoJob>, url: string, path: Option<string>): (r: Ledger<VideoJob>)
    // nothing is forgotten; either nothing changes, or one new digest comes with one appended job and one more request
    ensures l.handled <= r.handled
    ensures r == l || (r.handled > l.handled && |r.jobs| == |l.jobs| + 1 && r.jobs[..|l.jobs|] == l.jobs
                       && r.nbRequested == l.nbRequested + 1)
  {
    match DeferTarget(lib, vlib, url)
    case None => l
    case Some(t) => Submit(l, Digest.GetDigest(GetUrl(lib, t.url)), JobFor(lib, t, path))
  }

  /** A URL `defer` accepts: the path it returns and the submission it makes. */
  lemma DeferAccepted(lib: UrlLib, vlib: VideoLib, l: Ledger<VideoJob>, url: string, path: Option<string>, target: VideoTarget)
    requires GetVideoUrl(lib, vlib, url) == Some(target) && IsWebScheme(target.url.scheme)
    ensures DeferPath(lib, vlib, url, path) == Some(JobFor(lib, target, path).path)
    ensures DeferLedger(lib, vlib, l, url, path) == Submit(l, Digest.GetDigest(GetUrl(lib, target.url)), JobFor(lib, target, path))
  {
  }

  /** A URL `get_url` cannot handle, or a non-http(s) one, gets no path and changes nothing. */
  lemma DeferRejected(lib: UrlLib, vlib: VideoLib, l: Ledger<VideoJob>, url: string, path: Option<string>)
    requires DeferTarget(lib, vlib, url).None?
    ensures DeferPath(lib, vlib, url, path).None?
    ensures DeferLedger(lib, vlib, l, url, path) == l
  {
  }

  /** A digest already handled: a path is returned, and no job or count is added. */
  lemma DeferRepeat(lib: UrlLib, vlib: VideoLib, l: Ledger<VideoJob>, url: string, path: Option<string>)
    requires DeferTarget(lib, vlib, url).Some?
    requires Digest.GetDigest(GetUrl(lib, DeferTarget(lib, vlib, url).value.url)) in l.handled
    ensures DeferPath(lib, vlib, url, path).Some?
    ensures DeferLedger(lib, vlib, l, url, path) == l
  {
  }

  /** The first `defer` of a digest records it, counts it and submits exactly one job carrying the returned path and the YouTube flag. */
  lemma DeferFirst(lib: UrlLib, vlib: VideoLib, l: Ledger<VideoJob>, url: string, path: Option<string>)
    requires DeferTarget(lib, vlib, url).Some?
    requires Digest.GetDigest(GetUrl(lib, DeferTarget(lib, vlib, url).value.url)) !in l.handled
    ensures var l' := DeferLedger(lib, vlib, l, url, path);
      && l'.handled == l.handled + {Digest.GetDigest(GetUrl(lib, DeferTarget(lib, vlib, url).value.url))}
      && l'.nbRequested == l.nbRequested + 1
      && |l'.jobs| == |l.jobs| + 1 && l'.jobs[..|l.jobs|] == l.jobs
      && l'.jobs[|l.jobs|].url == DeferTarget(lib, vlib, url).value.url
      && l'.jobs[|l.jobs|].isYoutube == DeferTarget(lib, vlib, url).value.isYoutube
      && Some(l'.jobs[|l.jobs|].path) == DeferPath(lib, vlib, url, path)
  {
  }

  /** `defer` keeps one job per digest, so `nb_requested == |handled|` throughout. */
  lemma DeferValid(lib: UrlLib, vlib: VideoLib, l: Ledger<VideoJob>, url: string, path: Option<string>)
    requires LedgerValid(l, KeyOf(lib))
    ensures LedgerValid(DeferLedger(lib, vlib, l, url, path), KeyOf(lib))
    ensures DeferLedger(lib, vlib, l, url, path).nbRequested == |DeferLedger(lib, vlib, l, url, path).handled|
  {
    match DeferTarget(lib, vlib, url)
    case None =>
    case Some(t) =>
      var job := JobFor(lib, t, path);
      assert KeyOf(lib)(job) == Digest.GetDigest(GetUrl(lib, t.url));
      SubmitValid(l, KeyOf(lib), Digest.GetDigest(GetUrl(lib, t.url)), job);
  }

  /** Deferring the same URL twice schedules one job. */
  lemma DeferTwice(lib: UrlLib, vlib: VideoLib, l: Ledger<VideoJob>, url: string, p1: Option<string>, p2: Option<string>)
    ensures DeferLedger(lib, vlib, DeferLedger(lib, vlib, l, url, p1), url, p2) == DeferLedger(lib, vlib, l, url, p1)
  {
    match DeferTarget(lib, vlib, url)
    case None =>
    case Some(t) =>
      SubmitIdempotent(l, Digest.GetDigest(GetUrl(lib, t.url)), JobFor(lib, t, p1), JobFor(lib, t, p2));
  }

  /** A file youtube-dl may have left for a digest: its stem is the digest and it is not a thumbnail. */
  predicate IsCandidate(name: string, digest: string) {
    var n := PathName(name);
    Stem(n) == digest && Suffix(n) != ".jpg" && Suffix(n) != ".webp"
  }

  function CandidateTest(digest: string): string -> bool {
    name => IsCandidate(name, digest)
  }

  /** The comprehension over the directory listing in `get_video_fpath`, in listing order. */
  function Candidates(listing: seq<string>, digest: string): (r: seq<string>)
    ensures |r| <= |listing|
    ensures forall k :: 0 <= k < |r| ==> IsCandidate(r[k], digest) && r[k] in listing
    ensures forall k :: 0 <= k < |listing| && IsCandidate(listing[k], digest) ==> listing[k] in r
  {
    Filter(listing, CandidateTest(digest))
  }

  /** The file picked, `files[0]`, is the first candidate of the listing; there is one exactly when some entry is a candidate. */
  lemma FirstCandidate(listing: seq<string>, digest: string)
    ensures |Candidates(listing, digest)| > 0 <==> exists i :: 0 <= i < |listing| && IsCandidate(listing[i], digest)
    ensures |Candidates(listing, digest)| > 0 ==>
      exists i :: 0 <= i < |listing| && listing[i] == Candidates(listing, digest)[0]
        && forall j :: 0 <= j < i ==> !IsCandidate(listing[j], digest)
  {
    FilterFirst(listing, CandidateTest(digest));
  }

  /** Why `get_video_fpath` raises. */
  datatype FpathError = DownloadFailed | FileNotFound | InvalidName | ReencodeFailed

  /** What youtube-dl and ffmpeg do: whether the download worked, the directory it leaves, whether a re-encode would work. */
  datatype VideoFetch = VideoFetch(downloaded: bool, listing: seq<string>, reencodes: bool)

  /** The picked source file, or FileNotFoundError when no candidate is left. */
  function SelectSource(listing: seq<string>, digest: string): (r: Result<string, FpathError>)
    ensures r.Err? <==> forall k :: 0 <= k < |listing| ==> !IsCandidate(listing[k], digest)
    ensures r.Err? ==> r.error == FileNotFound
    ensures r.Ok? ==> IsCandidate(r.value, digest) && r.value in listing
  {
    FirstCandidate(listing, digest);
    var files := Candidates(listing, digest);
    if |files| == 0 then Err(FileNotFound) else Ok(files[0])
  }

  /** Re-encoding is skipped for a full-quality download already in the wanted format. */
  predicate SkipsReencode(src: string, lowQuality: bool, videoFormat: string): (r: bool)
    ensures lowQuality ==> !r
    // the source already has the wanted format as its extension
    ensures r && videoFormat != "" ==> Suffix(PathName(src)) == "." + videoFormat
  {
    var sfx := Suffix(PathName(src));
    assert sfx != "" ==> sfx == [sfx[0]] + DropFirst(sfx);
    !lowQuality && DropFirst(sfx) == videoFormat
  }

  /** `src_path.with_name(f"{src_path.stem}-2.{video_format}")`: the name beside the source. */
  function ReencodedName(src: string, videoFormat: string): string {
    Stem(PathName(src)) + "-2." + videoFormat
  }

  /**
   * `get_video_fpath`: the name, in the videos directory, of the file to add.
   * `with_name` raises for a name holding a "/", which only `video_format` can bring.
   */
  function VideoFpath(fetch: VideoFetch, digest: string, lowQuality: bool, videoFormat: string): (r: Result<string, FpathError>)
    ensures !fetch.downloaded ==> r == Err(DownloadFailed)
    ensures fetch.downloaded ==> (r == Err(FileNotFound) <==> SelectSource(fetch.listing, digest).Err?)
    ensures r.Ok? ==> SelectSource(fetch.listing, digest).Ok?
    ensures r.Ok? && SkipsReencode(SelectSource(fetch.listing, digest).value, lowQuality, videoFormat) ==>
      r.value == SelectSource(fetch.listing, digest).value
    ensures r.Ok? && !SkipsReencode(SelectSource(fetch.listing, digest).value, lowQuality, videoFormat) ==>
      r.value == digest + "-2." + videoFormat && fetch.reencodes && '/' !in videoFormat
  {
    if !fetch.downloaded then Err(DownloadFailed)
    else
      match SelectSource(fetch.listing, digest)
      case Err(e) => Err(e)
      case Ok(src) =>
        if SkipsReencode(src, lowQuality, videoFormat) then Ok(src)
        else if '/' in videoFormat then Err(InvalidName)
        else if !fetch.reencodes then Err(ReencodeFailed)
        else Ok(ReencodedName(src, videoFormat))
  }

  /** A kept download has the wanted format as its extension. */
  lemma KeptHasFormat(fetch: VideoFetch, digest: string, videoFormat: string)
    requires VideoFpath(fetch, digest, false, videoFormat).Ok?
    requires videoFormat != ""
    requires SkipsReencode(SelectSource(fetch.listing, digest).value, false, videoFormat)
    ensures Suffix(PathName(VideoFpath(fetch, digest, false, videoFormat).value)) == "." + videoFormat
  {
    var n := PathName(VideoFpath(fetch, digest, false, videoFormat).value);
    assert |Suffix(n)| > 0;
    assert Suffix(n) == [Suffix(n)[0]] + DropFirst(Suffix(n));
  }

  /**
   * A re-encoded output is never itself a candidate for the same digest: its
   * stem is `<digest>-2`, so a second run cannot pick it up.
   */
  lemma ReencodedNotCandidate(digest: string, videoFormat: string)
    requires videoFormat != "" && '.' !in videoFormat && '/' !in videoFormat
    requires '/' !in digest
    ensures !IsCandidate(digest + "-2." + videoFormat, digest)
  {
    var name := digest + "-2." + videoFormat;
    assert name == (digest + "-2") + "." + videoFormat;
    assert '/' !in name by {
      assert forall k :: 0 <= k < |name| ==> name[k] != '/' by {
        forall k | 0 <= k < |name|
          ensures name[k] != '/'
        {
          if k < |digest| { assert name[k] == digest[k]; }
          else if k >= |digest| + 3 { assert name[k] == videoFormat[k - |digest| - 3]; }
        }
      }
    }
    PathNameOfName(name);
    SplitName(digest + "-2", videoFormat);
    assert |Stem(name)| != |digest|;
  }

  /** The configuration `process_video` reads. */
  datatype VideoConf = VideoConf(s3Url: string, lowQuality: bool, videoFormat: string, videosDir: string, encoderVersion: string)

  /** What `process_video` would find besides the download: the version probes and the S3 lookup. */
  datatype VideoEnv = VideoEnv(head: Option<Headers>, get: Option<Headers>, cache: CacheOutcome)

  /** What one `process_video` run does (see `Images.Effects`). */
  datatype Effects = Effects(items: seq<Item>, upload: Option<Upload>, fetched: bool, probed: bool, queried: bool, result: JobResult)

  const VideoMimetype: string := "video/webm"

  /** The version identity: "1" for YouTube, with no probe, else `get_version_ident_for`. */
  function VideoIdent(job: VideoJob, env: VideoEnv): (r: Option<string>)
    ensures job.isYoutube ==> r == Some("1")
    ensures !job.isYoutube ==> r == VersionIdentFor(env.head, env.get)
  {
    if job.isYoutube then Some("1") else VersionIdentFor(env.head, env.get)
  }

  /** The content added for a fetched video: its file in the videos directory, deleted once written. */
  function FileContent(conf: VideoConf, name: string): Content {
    FilePath(conf.videosDir + "/" + name, true)
  }

  /** The `process_video` decision tree, given what `get_video_fpath` would return. */
  function VideoEffects(lib: UrlLib, aborted: bool, conf: VideoConf, job: VideoJob, env: VideoEnv, fpath: Result<string, FpathError>): (r: Effects)
    // once aborted, nothing happens at all
    ensures aborted ==> r == Effects([], None, false, false, false, Aborted)
    ensures !aborted ==> r.result != Aborted
    // every run that does not raise returns the job's path
    ensures !aborted && r.result != Raised ==> r.result == Done(job.path)
    // at most one item, always a WebM at the job's path
    ensures |r.items| <= 1
    ensures forall k :: 0 <= k < |r.items| ==> r.items[k].path == job.path && r.items[k].mimetype == VideoMimetype
    // without S3: the fetched file, or the exception escapes; the cache is never touched
    ensures !aborted && conf.s3Url == "" ==> !r.probed && !r.queried && r.upload.None? && r.fetched
    ensures !aborted && conf.s3Url == "" ==> (|r.items| == 1 <==> fpath.Ok?)
    ensures r.result == Raised <==>
      !aborted && conf.s3Url == "" && fpath.Err?
    // YouTube is never probed; other URLs with no version are skipped
    ensures !aborted && conf.s3Url != "" && job.isYoutube ==> !r.probed
    ensures !aborted && conf.s3Url != "" && VideoIdent(job, env).None? ==>
      r == Effects([], None, false, true, false, Done(job.path))
    // a cache hit: the cached bytes, no download, no upload
    ensures !aborted && conf.s3Url != "" && VideoIdent(job, env).Some? && env.cache.Hit? ==>
      r.items == [Item(job.path, Bytes(env.cache.data), VideoMimetype)] && !r.fetched && r.upload.None?
    // a miss: an item exactly when the download (and re-encode) works
    ensures !aborted && conf.s3Url != "" && VideoIdent(job, env).Some? && !env.cache.Hit? ==>
      && r.fetched && r.result == Done(job.path)
      && (|r.items| == 1 <==> fpath.Ok?)
    // an item from a download is the file it produced
    ensures |r.items| == 1 && r.fetched ==>
      fpath.Ok? && r.items[0].content == FileContent(conf, fpath.value)
    // an upload only after NotFound and a successful download, of that file, under the URL's key
    ensures r.upload.Some? <==>
      && !aborted && conf.s3Url != "" && VideoIdent(job, env).Some? && env.cache.NotFound?
      && fpath.Ok?
    ensures r.upload.Some? ==>
      && r.upload.value.key == S3Key(GetUrl(lib, job.url))
      && r.upload.value.meta == Meta(VideoIdent(job, env).value, conf.encoderVersion)
      && |r.items| == 1 && r.upload.value.content == r.items[0].content
  {
    if aborted then Effects([], None, false, false, false, Aborted)
    else if conf.s3Url == "" then
      match fpath
      case Err(_) => Effects([], None, true, false, false, Raised)
      case Ok(name) => Effects([Item(job.path, FileContent(conf, name), VideoMimetype)], None, true, false, false, Done(job.path))
    else
      match VideoIdent(job, env)
      case None => Effects([], None, false, true, false, Done(job.path))
      case Some(ident) =>
        var key := S3Key(GetUrl(lib, job.url));
        var meta := Meta(ident, conf.encoderVersion);
        var probed := !job.isYoutube;
        match env.cache
        case Hit(data) => Effects([Item(job.path, Bytes(data), VideoMimetype)], None, false, probed, true, Done(job.path))
        case _ =>
          match fpath
          case Err(_) => Effects([], None, true, probed, true, Done(job.path))
          case Ok(name) =>
            var content := FileContent(conf, name);
            Effects([Item(job.path, content, VideoMimetype)],
                    if env.cache.NotFound? then Some(Upload(key, content, meta)) else None,
                    true, probed, true, Done(job.path))
  }

  /** What `get_video_fpath(url.geturl(), is_youtube)` returns for a job. */
  function JobFpath(lib: UrlLib, conf: VideoConf, job: VideoJob, fetch: VideoFetch): Result<string, FpathError> {
    VideoFpath(fetch, JobDigest(lib, job), conf.lowQuality, conf.videoFormat)
  }

  /** The video registry. */
  class VideoGrabber {
    const lib: UrlLib
    const vlib: VideoLib
    var aborted: bool
    var handled: set<string>
    var nbRequested: nat
    var nbDone: nat
    var jobs: seq<VideoJob>

    function State(): Ledger<VideoJob>
      reads this
    {
      Ledger(handled, nbRequested, jobs)
    }

    ghost predicate Valid()
      reads this
    {
      LedgerValid(State(), KeyOf(lib))
    }

    constructor(lib: UrlLib, vlib: VideoLib)
      ensures Valid()
      ensures this.lib == lib && this.vlib == vlib
      ensures !aborted && handled == {} && nbRequested == 0 && nbDone == 0 && jobs == []
    {
      this.lib := lib;
      this.vlib := vlib;
      aborted := false;
      handled := {};
      nbRequested := 0;
      nbDone := 0;
      jobs := [];
    }

    /** `abort`: later jobs do nothing. */
    method Abort()
      modifies this
      ensures aborted
      ensures handled == old(handled) && nbRequested == old(nbRequested) && nbDone == old(nbDone) && jobs == old(jobs)
    {
      aborted := true;
    }

    /** `once_done`: the callback run once an item is written. */
    method OnceDone()
      modifies this
      ensures nbDone == old(nbDone) + 1
      ensures aborted == old(aborted) && State() == old(State())
    {
      nbDone := nbDone + 1;
    }

    /** `defer`: the archive path of a video, its job submitted unless its digest is already handled. */
    method Defer(url: string, path: Option<string>) returns (r: Option<string>)
      requires Valid()
      modifies this
      ensures Valid()
      ensures r == DeferPath(lib, vlib, url, path)
      ensures State() == DeferLedger(lib, vlib, old(State()), url, path)
      ensures aborted == old(aborted) && nbDone == old(nbDone)
    {
      ghost var before := State();
      var got := GetVideoUrl(lib, vlib, url);
      if got.None? {
        return None;
      }
      var target := got.value;
      if !IsWebScheme(target.url.scheme) {
        return None;
      }
      var digest := Digest.GetDigest(GetUrl(lib, target.url));
      var p := if path.None? then GetPathFor(lib, target.url) else path.value;
      var job := VideoJob(target.url, target.isYoutube, p);
      DeferAccepted(lib, vlib, before, url, path, target);
      assert job == JobFor(lib, target, path);
      Record(digest, job);
      return Some(p);
    }

    /** The tail of `defer`: a handled digest changes nothing, a new one is recorded, counted and its job submitted. */
    method Record(digest: string, job: VideoJob)
      requires Valid() && JobDigest(lib, job) == digest
      modifies this
      ensures Valid()
      ensures State() == Submit(old(State()), digest, job)
      ensures aborted == old(aborted) && nbDone == old(nbDone)
    {
      SubmitValid(State(), KeyOf(lib), digest, job);
      if digest in handled {
        return;
      }
      handled := handled + {digest};
      nbRequested := nbRequested + 1;
      jobs := jobs + [job];
    }

    /** `process_video`: adds the job's item to the creator and reports the upload it attempts. */
    method ProcessVideo(conf: VideoConf, job: VideoJob, fetch: VideoFetch, env: VideoEnv, creator: Creator)
      returns (r: JobResult, upload: Option<Upload>)
      modifies creator
      ensures creator.items == old(creator.items) + VideoEffects(lib, aborted, conf, job, env, JobFpath(lib, conf, job, fetch)).items
      ensures upload == VideoEffects(lib, aborted, conf, job, env, JobFpath(lib, conf, job, fetch)).upload
      ensures r == VideoEffects(lib, aborted, conf, job, env, JobFpath(lib, conf, job, fetch)).result
    {
      upload := None;
      if aborted {
        return Aborted, None;
      }
      // `get_video_fpath` depends only on the job and the download, so it is read once here
      var fpath := JobFpath(lib, conf, job, fetch);
      if conf.s3Url == "" {
        r, upload := ProcessWithoutS3(conf, job, fpath, env, creator);
      } else {
        r, upload := ProcessWithS3(conf, job, fpath, env, creator);
      }
    }

    /** `process_video` without S3: the downloaded (and perhaps re-encoded) file is added, or the exception escapes. */
    method ProcessWithoutS3(conf: VideoConf, job: VideoJob, fpath: Result<string, FpathError>, env: VideoEnv, creator: Creator)
      returns (r: JobResult, upload: Option<Upload>)
      requires !aborted && conf.s3Url == ""
      modifies creator
      ensures creator.items == old(creator.items) + VideoEffects(lib, aborted, conf, job, env, fpath).items
      ensures upload == VideoEffects(lib, aborted, conf, job, env, fpath).upload
      ensures r == VideoEffects(lib, aborted, conf, job, env, fpath).result
    {
      upload := None;
      if fpath.Err? {
        return Raised, None;
      }
      creator.AddItemFor(Item(job.path, FilePath(conf.videosDir + "/" + fpath.value, true), VideoMimetype));
      return Done(job.path), None;
    }

    /** The S3 branch of `process_video`: probe, look the key up in the cache, download and upload on a miss. */
    method ProcessWithS3(conf: VideoConf, job: VideoJob, fpath: Result<string, FpathError>, env: VideoEnv, creator: Creator)
      returns (r: JobResult, upload: Option<Upload>)
      requires !aborted && conf.s3Url != ""
      modifies creator
      ensures creator.items == old(creator.items) + VideoEffects(lib, aborted, conf, job, env, fpath).items
      ensures upload == VideoEffects(lib, aborted, conf, job, env, fpath).upload
      ensures r == VideoEffects(lib, aborted, conf, job, env, fpath).result
    {
      upload := None;
      var ident: string;
      if job.isYoutube {
        ident := "1";
      } else {
        var probe := VersionIdentFor(env.head, env.get);
        if probe.None? {
          return Done(job.path), None;
        }
        ident := probe.value;
      }
      var key := S3Key(GetUrl(lib, job.url));
      var meta := Meta(ident, conf.encoderVersion);
      var downloadFailed := false;
      match env.cache {
        case NotFound =>
        case Failed =>
          downloadFailed := true;
        case Hit(data) =>
          creator.AddItemFor(Item(job.path, Bytes(data), VideoMimetype));
          return Done(job.path), None;
      }
      if fpath.Err? {
        return Done(job.path), None;
      }
      var content := FilePath(conf.videosDir + "/" + fpath.value, true);
      creator.AddItemFor(Item(job.path, content, VideoMimetype));
      if !downloadFailed {
        upload := Some(Upload(key, content, meta));
      }
      return Done(job.path), upload;
    }
  }
}
