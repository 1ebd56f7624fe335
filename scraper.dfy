/**
 * The scraper object's set-up: every required option must be among the
 * keyword arguments, checked in a fixed order before any is stored; then
 * each is stored as an attribute and the language picks the site's URL.
 */
module Scraper {
  import opened Wrappers

  /** The required options, in the order they are checked. */
  const Options: seq<string> := [
    "language", "name", "publisher", "tags", "output_dir", "tmp_dir", "fname",
    "keep_build_dir", "low_quality", "no_external_links", "s3_url_with_credentials", "debug"
  ]

  /** `ValueError` for a missing option, `KeyError` for a language without a URL. */
  datatype Failure = ValueError(message: string) | KeyError

  function MissingMessage(option: string): string {
    "Missing parameter `" + option + "`"
  }

  /** The position of the first option absent from `kwargs`, if any. */
  function FirstMissing<V>(kwargs: map<string, V>, opts: seq<string>): (r: Option<nat>)
    ensures r.Some? ==> r.value < |opts| && opts[r.value] !in kwargs
    ensures r.Some? ==> forall j :: 0 <= j < r.value ==> opts[j] in kwargs
    ensures r.None? <==> forall j :: 0 <= j < |opts| ==> opts[j] in kwargs
  {
    if |opts| == 0 then None
    else if opts[0] !in kwargs then Some(0)
    else match FirstMissing(kwargs, opts[1..])
      case None => None
      case Some(j) => Some(j + 1)
  }

  /** The attributes the set-up stores: the required options, with their values. */
  function Picked<V>(kwargs: map<string, V>): map<string, V> {
    PickedFrom(kwargs, Options)
  }

  function PickedFrom<V>(kwargs: map<string, V>, opts: seq<string>): map<string, V> {
    map o | o in opts && o in kwargs :: kwargs[o]
  }

  /** `setattr` for the first `i` options, one after the other. */
  function StoredUpTo<V>(attrs: map<string, V>, kwargs: map<string, V>, opts: seq<string>, i: nat): map<string, V>
    requires i <= |opts| && forall j :: 0 <= j < |opts| ==> opts[j] in kwargs
  {
    if i == 0 then attrs else StoredUpTo(attrs, kwargs, opts, i - 1)[opts[i - 1] := kwargs[opts[i - 1]]]
  }

  /** Storing the options one by one adds exactly the picked ones, whatever their order. */
  lemma {:induction false} StoredIsPicked<V>(attrs: map<string, V>, kwargs: map<string, V>, opts: seq<string>, i: nat)
    requires i <= |opts| && forall j :: 0 <= j < |opts| ==> opts[j] in kwargs
    ensures StoredUpTo(attrs, kwargs, opts, i) == attrs + PickedFrom(kwargs, opts[..i])
  {
    if i > 0 {
      StoredIsPicked(attrs, kwargs, opts, i - 1);
      assert opts[..i] == opts[..i - 1] + [opts[i - 1]];
    }
  }

  /** Keyword arguments that are not options change nothing that is stored. */
  lemma ExtraIgnored<V>(kwargs: map<string, V>, extra: map<string, V>)
    requires forall k :: k in extra ==> k !in Options
    ensures Picked(kwargs + extra) == Picked(kwargs)
    ensures FirstMissing(kwargs + extra, Options) == FirstMissing(kwargs, Options)
  {
    ExtraIgnoredFrom(kwargs, extra, Options);
  }

  lemma {:induction false} ExtraIgnoredFrom<V>(kwargs: map<string, V>, extra: map<string, V>, opts: seq<string>)
    requires forall k :: k in extra ==> k !in opts
    ensures FirstMissing(kwargs + extra, opts) == FirstMissing(kwargs, opts)
    decreases |opts|
  {
    if |opts| > 0 {
      assert opts[0] !in extra;
      if opts[0] in kwargs {
        ExtraIgnoredFrom(kwargs, extra, opts[1..]);
      }
    }
  }

  /** `wikihow2zim`: its attributes are the options it was given. */
  class Wikihow2zim<V(==)> {
    var attrs: map<string, V>
    var url: Option<string>

    constructor()
      ensures attrs == map[] && url == None
    {
      attrs := map[];
      url := None;
    }

    /** The first loop of `__init__`: the first option missing from `kwargs`. */
    static method FindMissing(kwargs: map<string, V>) returns (missing: Option<nat>)
      ensures missing == FirstMissing(kwargs, Options)
    {
      var i := 0;
      while i < |Options|
        invariant 0 <= i <= |Options|
        invariant forall j :: 0 <= j < i ==> Options[j] in kwargs
      {
        if Options[i] !in kwargs {
          FirstMissingAt(kwargs, Options, i);
          return Some(i);
        }
        i := i + 1;
      }
      FirstMissingAt(kwargs, Options, i);
      return None;
    }

    /**
     * `__init__`: nothing is stored unless every option is present; then
     * each is stored, and the language is looked up among `urls`.
     */
    method Init(kwargs: map<string, V>, urls: map<V, string>) returns (err: Option<Failure>)
      modifies this
      ensures FirstMissing(kwargs, Options).Some? ==>
        err == Some(ValueError(MissingMessage(Options[FirstMissing(kwargs, Options).value]))) &&
        attrs == old(attrs) && url == old(url)
      ensures FirstMissing(kwargs, Options).None? ==>
        attrs == old(attrs) + Picked(kwargs) &&
        (kwargs["language"] in urls ==> err.None? && url == Some(urls[kwargs["language"]])) &&
        (kwargs["language"] !in urls ==> err == Some(KeyError) && url == old(url))
    {
      var missing := FindMissing(kwargs);
      if missing.Some? {
        return Some(ValueError(MissingMessage(Options[missing.value])));
      }
      ghost var before := attrs;
      var i := 0;
      while i < |Options|
        invariant 0 <= i <= |Options| && url == old(url)
        invariant attrs == StoredUpTo(before, kwargs, Options, i)
      {
        var option := Options[i];
        attrs := attrs[option := kwargs[option]];
        i := i + 1;
      }
      StoredIsPicked(before, kwargs, Options, i);
      assert Options[..i] == Options;
      var language := attrs["language"];
      if language !in urls {
        return Some(KeyError);
      }
      url := Some(urls[language]);
      return None;
    }

    /** `wikihow2zim(**kwargs)`: a new scraper, or the exception its set-up raises. */
    static method New(kwargs: map<string, V>, urls: map<V, string>) returns (r: Result<Wikihow2zim<V>, Failure>)
      ensures r.Ok? <==> FirstMissing(kwargs, Options).None? && kwargs["language"] in urls
      ensures r.Ok? ==> fresh(r.value) && r.value.attrs == Picked(kwargs) && r.value.url == Some(urls[kwargs["language"]])
      ensures FirstMissing(kwargs, Options).Some? ==>
        r == Err(ValueError(MissingMessage(Options[FirstMissing(kwargs, Options).value])))
    {
      var s := new Wikihow2zim<V>();
      var err := s.Init(kwargs, urls);
      if err.Some? {
        return Err(err.value);
      }
      return Ok(s);
    }
  }

  /** The scan stopping at `i` finds what FirstMissing finds. */
  lemma FirstMissingAt<V>(kwargs: map<string, V>, opts: seq<string>, i: nat)
    requires i <= |opts| && forall j :: 0 <= j < i ==> opts[j] in kwargs
    requires i < |opts| ==> opts[i] !in kwargs
    ensures FirstMissing(kwargs, opts) == if i < |opts| then Some(i) else None
  {
  }
}
