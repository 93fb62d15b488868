/**
 * The pure string logic of lib/fileUpload.ts: the public URL that `uploadToS3`
 * returns for a stored object, and `extractS3Key`, which recovers the object key
 * from a stored image URL (an `s3://` location, an http(s) URL, or a bare key).
 */
module FileUpload {

  import opened Wrappers
  import opened Strings

  const UsEast1 := "us-east-1"

  /** The URL `uploadToS3` returns after a successful put of `key` into `bucket`. */
  function UploadUrl(bucket: string, region: string, key: string): string
  {
    if region == UsEast1 then "https://" + bucket + ".s3.amazonaws.com/" + key
    else "https://" + bucket + ".s3." + region + ".amazonaws.com/" + key
  }

  /** End of the longest run of characters other than '/' that starts at `i`. */
  function HostEnd(u: string, i: nat): (j: nat)
    requires i <= |u|
    ensures i <= j <= |u|
    ensures forall k :: i <= k < j ==> u[k] != '/'
    ensures j < |u| ==> u[j] == '/'
    decreases |u| - i
  {
    if i == |u| || u[i] == '/' then i else HostEnd(u, i + 1)
  }

  /** End of the longest run of characters that the regular-expression `.` matches, from `i`. */
  function LineEnd(u: string, i: nat): (j: nat)
    requires i <= |u|
    ensures i <= j <= |u|
    ensures forall k :: i <= k < j ==> !IsLineTerminator(u[k])
    ensures j < |u| ==> IsLineTerminator(u[j])
    decreases |u| - i
  {
    if i == |u| || IsLineTerminator(u[i]) then i else LineEnd(u, i + 1)
  }

  /** Length of the `https?:\/\/` that `rest` starts with, if it starts with one. */
  function SchemeLength(rest: string): (n: Option<nat>)
    ensures n.Some? ==> n.value <= |rest|
  {
    if StartsWith(rest, "https://") then Some(8)
    else if StartsWith(rest, "http://") then Some(7)
    else None
  }

  /** Group 1 of `[^\/]+\/(.+)` matched from `h`, the first character after the scheme. */
  function CaptureAfterScheme(u: string, h: nat): (r: Option<string>)
    requires h <= |u|
    ensures r.Some? ==> 0 < |r.value| <= |u| - h
  {
    var slash := HostEnd(u, h);
    if slash == h || slash == |u| then None
    else
      var stop := LineEnd(u, slash + 1);
      if stop == slash + 1 then None else Some(u[slash + 1..stop])
  }

  /**
   * Group 1 of `/https?:\/\/[^\/]+\/(.+)/` for a match that starts exactly at `i`.
   * `[^\/]+` must stop at a '/', and `.+` takes the rest of the line; shorter
   * choices of either cannot succeed, and neither can dropping the optional 's'
   * when it is present, so this is the only candidate at `i`.
   */
  function HttpCaptureAt(u: string, i: nat): (r: Option<string>)
    requires i <= |u|
    ensures r.Some? ==> 0 < |r.value| <= |u| - i
  {
    match SchemeLength(u[i..])
    case None => None
    case Some(n) => CaptureAfterScheme(u, i + n)
  }

  /** The leftmost match of the (unanchored) pattern, searching from position `i`. */
  function HttpCaptureFrom(u: string, i: nat): (r: Option<string>)
    requires i <= |u|
    ensures r.Some? ==> |r.value| <= |u|
    decreases |u| - i
  {
    match HttpCaptureAt(u, i)
    case Some(c) => Some(c)
    case None => if i == |u| then None else HttpCaptureFrom(u, i + 1)
  }

  /** `extractS3Key`. `None` stands for the `null` it returns. */
  function ExtractS3Key(url: string): (r: Option<string>)
    ensures r.None? ==> url == "" || StartsWith(url, "s3://")
    ensures r.Some? ==> |r.value| <= |url|
  {
    if url == "" then None
    else if StartsWith(url, "s3://") then
      // replace('s3://', '') removes the occurrence at the front; split('/')
      // has more than one part iff a '/' follows, and slice(1).join('/') is
      // the text after that first '/'
      var rest := url[5..];
      match IndexOf(rest, '/')
      case None => None
      case Some(k) => Some(rest[k + 1..])
    else
      match HttpCaptureFrom(url, 0)
      case Some(c) => Some(BeforeFirst(c, '?'))
      case None => Some(url)
  }

  lemma ExtractEmpty()
    ensures ExtractS3Key("") == None
  {
  }

  /** `s3://bucket/rest` gives everything after the bucket's '/'. */
  lemma ExtractS3Location(bucket: string, rest: string)
    requires '/' !in bucket
    ensures ExtractS3Key("s3://" + bucket + "/" + rest) == Some(rest)
  {
    var url := "s3://" + bucket + "/" + rest;
    assert StartsWith(url, "s3://");
    assert url[5..] == bucket + "/" + rest;
    var k := IndexOf(url[5..], '/');
    assert (bucket + "/" + rest)[|bucket|] == '/';
    assert (bucket + "/" + rest)[..|bucket|] == bucket;
    assert k == Some(|bucket|);
  }

  /** `s3://bucket` without a '/' after the bucket gives `null`. */
  lemma ExtractS3BucketOnly(bucket: string)
    requires '/' !in bucket
    ensures ExtractS3Key("s3://" + bucket) == None
  {
    var url := "s3://" + bucket;
    assert StartsWith(url, "s3://");
    assert url[5..] == bucket;
  }

  /** A capture found at position 0 is the leftmost one. */
  lemma CaptureAtStart(u: string)
    requires HttpCaptureAt(u, 0).Some?
    ensures HttpCaptureFrom(u, 0) == HttpCaptureAt(u, 0)
  {
  }

  lemma SchemeOf(scheme: string, tail: string)
    requires scheme == "https://" || scheme == "http://"
    ensures SchemeLength(scheme + tail) == Some(|scheme|)
  {
    var u := scheme + tail;
    assert u[..|scheme|] == scheme;
    if scheme == "http://" { assert u[4] == ':'; }
  }

  lemma CaptureAfterHost(u: string, h: nat, n: nat)
    requires 0 < n && h + n + 1 < |u|
    requires forall k :: h <= k < h + n ==> u[k] != '/'
    requires u[h + n] == '/'
    requires forall k :: h + n + 1 <= k < |u| ==> !IsLineTerminator(u[k])
    ensures CaptureAfterScheme(u, h) == Some(u[h + n + 1..])
  {
    HostEndAt(u, h, n);
    LineEndAt(u, h + n + 1, |u| - (h + n + 1));
    assert HostEnd(u, h) == h + n;
    assert LineEnd(u, h + n + 1) == |u|;
    assert u[h + n + 1..|u|] == u[h + n + 1..];
  }

  /**
   * An http(s) URL `scheme host/path` gives the path up to its first '?'
   * (when the path is one line; the group stops at a line break).
   */
  lemma ExtractHttpUrl(scheme: string, host: string, path: string)
    requires scheme == "https://" || scheme == "http://"
    requires host != [] && '/' !in host
    requires path != [] && forall k :: 0 <= k < |path| ==> !IsLineTerminator(path[k])
    ensures ExtractS3Key(scheme + host + "/" + path) == Some(BeforeFirst(path, '?'))
  {
    var tail := host + "/" + path;
    var u := scheme + tail;
    assert u == scheme + host + "/" + path;
    var h := |scheme|;
    assert u[0..] == u;
    assert !StartsWith(u, "s3://") by { assert u[1] == 't'; }
    SchemeOf(scheme, tail);
    forall k | h <= k < h + |host| ensures u[k] != '/' {
      assert u[k] == host[k - h];
    }
    assert u[h + |host|] == '/';
    forall k | h + |host| + 1 <= k < |u| ensures !IsLineTerminator(u[k]) {
      assert u[k] == path[k - h - |host| - 1];
    }
    CaptureAfterHost(u, h, |host|);
    assert u[h + |host| + 1..] == path;
    CaptureAtStart(u);
  }

  lemma {:induction false} HostEndAt(u: string, i: nat, n: nat)
    requires i + n < |u|
    requires forall k :: i <= k < i + n ==> u[k] != '/'
    requires u[i + n] == '/'
    ensures HostEnd(u, i) == i + n
    decreases n
  {
    if n > 0 { HostEndAt(u, i + 1, n - 1); }
  }

  lemma {:induction false} LineEndAt(u: string, i: nat, n: nat)
    requires i + n == |u|
    requires forall k :: i <= k < i + n ==> !IsLineTerminator(u[k])
    ensures LineEnd(u, i) == i + n
    decreases n
  {
    if n > 0 { LineEndAt(u, i + 1, n - 1); }
  }

  /** A string that is not empty, not an `s3://` location and has no http(s) match comes back unchanged. */
  lemma ExtractOther(url: string)
    requires url != "" && !StartsWith(url, "s3://")
    requires HttpCaptureFrom(url, 0).None?
    ensures ExtractS3Key(url) == Some(url)
  {
  }

  /** The key that comes back from an upload URL is the stored key up to its first '?'. */
  lemma UploadUrlExtract(bucket: string, region: string, key: string)
    requires '/' !in bucket && '/' !in region
    requires key != []
    requires forall k :: 0 <= k < |key| ==> !IsLineTerminator(key[k])
    ensures ExtractS3Key(UploadUrl(bucket, region, key)) == Some(BeforeFirst(key, '?'))
  {
    var host := if region == UsEast1 then bucket + ".s3.amazonaws.com"
                else bucket + ".s3." + region + ".amazonaws.com";
    assert UploadUrl(bucket, region, key) == "https://" + host + "/" + key;
    assert host[|host| - 1] == 'm';
    ExtractHttpUrl("https://", host, key);
  }

  /**
   * Round trip: for a bucket and region without '/', and a non-empty one-line
   * key without '?', the key is recovered from the URL `uploadToS3` returns.
   */
  lemma UploadUrlRoundTrip(bucket: string, region: string, key: string)
    requires '/' !in bucket && '/' !in region
    requires key != [] && '?' !in key
    requires forall k :: 0 <= k < |key| ==> !IsLineTerminator(key[k])
    ensures ExtractS3Key(UploadUrl(bucket, region, key)) == Some(key)
  {
    UploadUrlExtract(bucket, region, key);
  }

  /**
   * Without the '?' condition the round trip fails: `uploadToS3` puts the key into
   * the URL unescaped, so whatever follows a '?' in the key is read back as a query.
   */
  lemma UploadUrlQuestionMarkKey(bucket: string, region: string, before: string, after: string)
    requires '/' !in bucket && '/' !in region
    requires '?' !in before
    requires forall k :: 0 <= k < |before + "?" + after| ==> !IsLineTerminator((before + "?" + after)[k])
    ensures ExtractS3Key(UploadUrl(bucket, region, before + "?" + after)) == Some(before)
  {
    var key := before + "?" + after;
    assert key != [];
    UploadUrlExtract(bucket, region, key);
    IndexOfFirst(before, '?', after);
    assert before + ['?'] + after == key;
    assert key[..|before|] == before;
  }

  lemma IndexOfFirst(before: string, c: char, after: string)
    requires c !in before
    ensures IndexOf(before + [c] + after, c) == Some(|before|)
  {
    var s := before + [c] + after;
    assert s[|before|] == c;
    assert forall j :: 0 <= j < |before| ==> s[j] == before[j];
  }
}
