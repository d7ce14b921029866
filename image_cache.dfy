/**
 * The image cache (main.py, `download_image`): one file per identifier in
 * the `cache` directory. A file already there is returned without any
 * request; otherwise the image is requested once and written only when the
 * answer has status 200. Entries are never refreshed or removed.
 *
 * The directory is modelled as a map from path to bytes and the network as
 * the outcome of the one GET the call may issue.
 */
module ImageCache {
  import opened Wrappers

  type Bytes = seq<bv8>

  /** The answer to `requests.get(url)`; an exception is `TransportFault`. */
  datatype HttpOutcome = Response(status: int, content: Bytes) | TransportFault

  const CacheDir: string := "cache"
  const StatusOk: int := 200

  /** `os.path.join(dir, name)` on POSIX. */
  function JoinPath(dir: string, name: string): string
  {
    if |name| > 0 && name[0] == '/' then name
    else if dir == "" || dir[|dir| - 1] == '/' then dir + name
    else dir + "/" + name
  }

  /**
   * The joined path ends with `name`. An absolute `name` replaces `dir`;
   * otherwise the path starts with `dir`, and one `/` separates them unless
   * `dir` is empty or already ends with one.
   */
  lemma JoinPathSpec(dir: string, name: string)
    ensures var r := JoinPath(dir, name);
            && |r| >= |name| && r[|r| - |name|..] == name
            && (|name| > 0 && name[0] == '/' ==> r == name)
            && (!(|name| > 0 && name[0] == '/') ==>
                  && |r| >= |dir| && r[..|dir|] == dir
                  && (r == dir + "/" + name <==> dir != "" && dir[|dir| - 1] != '/')
                  && (r != dir + "/" + name ==> r == dir + name))
  {
    var r := JoinPath(dir, name);
    if !(|name| > 0 && name[0] == '/') {
      if dir != "" && dir[|dir| - 1] != '/' {
        assert r[..|dir|] == dir;
      } else {
        assert r != dir + "/" + name by {
          assert |r| != |dir + "/" + name|;
        }
      }
    }
  }

  /** `os.path.join("cache", f"{filename}.jpg")`. */
  function CachePath(filename: string): string
  {
    JoinPath(CacheDir, filename + ".jpg")
  }

  /** The cache path is `cache/{filename}.jpg`, unless the identifier is absolute. */
  lemma CachePathShape(filename: string)
    ensures |filename| > 0 && filename[0] == '/' ==> CachePath(filename) == filename + ".jpg"
    ensures !(|filename| > 0 && filename[0] == '/') ==> CachePath(filename) == "cache/" + filename + ".jpg"
  {
    if |filename| > 0 {
      assert (filename + ".jpg")[0] == filename[0];
    }
  }

  /** The cache path is absolute exactly when the identifier is. */
  lemma CachePathHead(x: string)
    ensures |CachePath(x)| > 0 && (CachePath(x)[0] == '/' <==> |x| > 0 && x[0] == '/')
  {
    if |x| > 0 {
      assert (x + ".jpg")[0] == x[0];
    }
  }

  /** Distinct identifiers never share a cache path. */
  lemma CachePathInjective(a: string, b: string)
    requires CachePath(a) == CachePath(b)
    ensures a == b
  {
    CachePathHead(a);
    CachePathHead(b);
    var na, nb := a + ".jpg", b + ".jpg";
    if |a| > 0 && a[0] == '/' {
      assert CachePath(a) == na && CachePath(b) == nb;
      assert na[..|a|] == a && nb[..|b|] == b;
    } else {
      assert CachePath(a) == "cache/" + na && CachePath(b) == "cache/" + nb;
      assert |a| == |b|;
      assert CachePath(a)[6..6 + |a|] == a && CachePath(b)[6..6 + |b|] == b;
    }
  }

  /** The result of one `download_image` call: the new directory, the returned path, and whether a GET was issued. */
  datatype FetchResult = FetchResult(files: map<string, Bytes>, path: Option<string>, downloaded: bool)

  /** What `download_image(url, filename)` does to the directory `files` when the GET would answer `response`. */
  function Fetch(files: map<string, Bytes>, filename: string, response: HttpOutcome): (r: FetchResult)
    ensures r.downloaded <==> CachePath(filename) !in files
    ensures r.path.Some? ==> r.path.value == CachePath(filename) && r.path.value in r.files
    ensures r.path.None? ==> r.downloaded && (response.TransportFault? || response.status != StatusOk)
    ensures r.path.None? ==> r.files == files
    ensures !r.downloaded ==> r.files == files
    ensures forall p :: p != CachePath(filename) ==> (p in r.files <==> p in files)
    ensures forall p :: p != CachePath(filename) && p in files ==> r.files[p] == files[p]
    ensures r.files.Keys == files.Keys || r.files.Keys == files.Keys + {CachePath(filename)}
  {
    var p := CachePath(filename);
    if p in files then FetchResult(files, Some(p), false)
    else if response.Response? && response.status == StatusOk then FetchResult(files[p := response.content], Some(p), true)
    else FetchResult(files, None, true)
  }

  /**
   * A miss returns a path exactly when the answer is a 200, and then the
   * file holds the answer's bytes; any other answer leaves the directory as it was.
   */
  lemma FetchMiss(files: map<string, Bytes>, filename: string, response: HttpOutcome)
    requires CachePath(filename) !in files
    ensures var r := Fetch(files, filename, response);
            && (r.path.Some? <==> response.Response? && response.status == StatusOk)
            && (r.path.Some? ==> r.files == files[CachePath(filename) := response.content])
            && (r.path.None? ==> r.files == files)
  {
  }

  /**
   * Idempotence: once a call has returned a path, a second call with the
   * same identifier returns the same path, changes nothing and issues no
   * request, whatever the network would answer.
   */
  lemma FetchIdempotent(files: map<string, Bytes>, filename: string, first: HttpOutcome, second: HttpOutcome)
    requires Fetch(files, filename, first).path.Some?
    ensures var r1 := Fetch(files, filename, first);
            var r2 := Fetch(r1.files, filename, second);
            r2 == FetchResult(r1.files, r1.path, false)
  {
  }

  /** A call never touches the cache path of another identifier. */
  lemma FetchLeavesOthers(files: map<string, Bytes>, filename: string, other: string, response: HttpOutcome)
    requires other != filename && CachePath(other) in files
    ensures var r := Fetch(files, filename, response);
            CachePath(other) in r.files && r.files[CachePath(other)] == files[CachePath(other)]
  {
    if CachePath(other) == CachePath(filename) {
      CachePathInjective(other, filename);
    }
  }

  /** The process-wide cache: the directory's files and the number of downloads issued so far. */
  class Cache {
    var files: map<string, Bytes>
    var downloads: nat

    /** The directory as found at start-up (it persists across runs). */
    constructor (existing: map<string, Bytes>)
      ensures files == existing && downloads == 0
    {
      files := existing;
      downloads := 0;
    }

    /** `download_image(url, filename)`, where `response` is what the GET of `url` would answer. */
    method DownloadImage(url: string, filename: string, response: HttpOutcome) returns (path: Option<string>)
      modifies this
      ensures var r := Fetch(old(files), filename, response);
              && files == r.files && path == r.path
              && downloads == old(downloads) + (if r.downloaded then 1 else 0)
    {
      var cachePath := CachePath(filename);
      if cachePath in files {
        return Some(cachePath);
      }
      downloads := downloads + 1;
      if response.Response? && response.status == StatusOk {
        files := files[cachePath := response.content];
        return Some(cachePath);
      }
      return None;
    }
  }

  /**
   * Two calls with the same identifier on a cache started from `existing`:
   * after a success the second call returns the same path, and at most one
   * download is issued (none on a hit, exactly one on a miss).
   */
  method DownloadTwice(existing: map<string, Bytes>, url: string, filename: string, first: HttpOutcome, second: HttpOutcome)
    returns (path1: Option<string>, path2: Option<string>, downloads: nat)
    ensures path1.Some? ==> path2 == path1 && downloads <= 1
    ensures CachePath(filename) in existing ==> downloads == 0 && path1 == path2 == Some(CachePath(filename))
    ensures CachePath(filename) !in existing && path1.Some? ==> downloads == 1
    ensures path1.None? ==> downloads == 2
  {
    var cache := new Cache(existing);
    path1 := cache.DownloadImage(url, filename, first);
    path2 := cache.DownloadImage(url, filename, second);
    downloads := cache.downloads;
  }
}
