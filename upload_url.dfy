/**
 * The direct-upload location check: the anchored pattern
 *   \Ahttps://s3.amazonaws.com/<bucket>/(?<path>uploads/.+/(?<filename>.+))\z
 * written as an explicit parser. Ruby's `.` matches any character but a
 * newline, `\A` and `\z` anchor at the very start and end of the string, and
 * the greedy `.+` before the last literal `/` pushes the split as far right
 * as it can go while leaving a non-empty filename.
 */
module UploadUrl {
  import opened Wrappers

  const Origin := "https://s3.amazonaws.com/"
  const UploadsDir := "uploads/"

  /** The two named captures of a successful match. */
  datatype Location = Location(path: string, filename: string)

  /** Everything before the `path` capture, for the given bucket. */
  function Prefix(bucket: string): string {
    Origin + bucket + "/"
  }

  /** No character is a newline: what a run of Ruby's `.` can match. */
  predicate NoNewline(s: string) {
    forall i :: 0 <= i < |s| ==> s[i] != '\n'
  }

  /**
   * The largest index `j` with `1 <= j <= k` and `rest[j] == '/'`: the slash the
   * greedy `.+` stops before.
   */
  function LastSplit(rest: string, k: int): (j: Option<nat>)
    requires k < |rest|
    ensures j.Some? ==> 1 <= j.value <= k && rest[j.value] == '/'
    ensures j.Some? ==> forall i :: j.value < i <= k ==> rest[i] != '/'
    ensures j.None? ==> forall i :: 1 <= i <= k ==> rest[i] != '/'
    decreases k
  {
    if k < 1 then None
    else if rest[k] == '/' then Some(k)
    else LastSplit(rest, k - 1)
  }

  /** A split of the text after `uploads/` into the segment and the filename. */
  datatype Split = Split(segment: string, filename: string)

  /** `.+/(?<filename>.+)\z` against the text after `uploads/`. */
  function SplitRest(rest: string): (r: Option<Split>)
    ensures r.Some? ==> rest == r.value.segment + "/" + r.value.filename
    ensures r.Some? ==> r.value.segment != [] && r.value.filename != []
    ensures r.Some? ==> NoNewline(r.value.segment) && NoNewline(r.value.filename)
  {
    if !NoNewline(rest) then None
    else
      match LastSplit(rest, |rest| - 2)
      case None => None
      case Some(j) =>
        assert rest == rest[..j] + "/" + rest[j + 1..];
        NoNewlineSlice(rest, 0, j);
        NoNewlineSlice(rest, j + 1, |rest|);
        Some(Split(rest[..j], rest[j + 1..]))
  }

  lemma NoNewlineSlice(s: string, a: nat, b: nat)
    requires a <= b <= |s| && NoNewline(s)
    ensures NoNewline(s[a..b])
  {
    forall i | 0 <= i < b - a ensures s[a..b][i] != '\n' {
      assert s[a..b][i] == s[a + i];
    }
  }

  /** Every well-shaped text splits, and the greedy split leaves the shortest filename. */
  lemma SplitComplete(segment: string, filename: string)
    requires segment != [] && filename != []
    requires NoNewline(segment) && NoNewline(filename)
    ensures SplitRest(segment + "/" + filename).Some?
    ensures |SplitRest(segment + "/" + filename).value.filename| <= |filename|
  {
    var rest := segment + "/" + filename;
    forall i | 0 <= i < |rest| ensures rest[i] != '\n' {
      if i < |segment| { assert rest[i] == segment[i]; }
      else if i > |segment| { assert rest[i] == filename[i - |segment| - 1]; }
    }
    assert rest[|segment|] == '/';
    var j := LastSplit(rest, |rest| - 2);
    assert j.Some? && j.value >= |segment|;
  }

  lemma SlicesAroundSlash(a: string, b: string)
    ensures (a + "/" + b)[..|a|] == a && (a + "/" + b)[|a| + 1..] == b
  {
    assert (a + "/" + b)[..|a|] == a;
  }

  /** A filename with no slash is split off exactly. */
  lemma SplitExact(segment: string, filename: string)
    requires segment != [] && filename != []
    requires NoNewline(segment) && NoNewline(filename)
    requires forall i :: 0 <= i < |filename| ==> filename[i] != '/'
    ensures SplitRest(segment + "/" + filename) == Some(Split(segment, filename))
  {
    SplitComplete(segment, filename);
    var rest := segment + "/" + filename;
    var j := LastSplit(rest, |rest| - 2).value;
    assert rest[|segment|] == '/';
    SlicesAroundSlash(segment, filename);
  }

  /** A slash can appear in the split-off filename only as its last character. */
  lemma SplitFilenameSlashes(rest: string)
    requires SplitRest(rest).Some?
    ensures var f := SplitRest(rest).value.filename;
      forall i :: 0 <= i < |f| - 1 ==> f[i] != '/'
  {
    var j := LastSplit(rest, |rest| - 2).value;
    var f := rest[j + 1..];
    forall i | 0 <= i < |f| - 1 ensures f[i] != '/' {
      assert f[i] == rest[j + 1 + i];
    }
  }

  /** `uploads/.+/(?<filename>.+)\z` against the text after the bucket. */
  function ParsePath(path: string): (r: Option<Location>)
    ensures r.Some? ==> r.value.path == path && UploadsDir <= path
  {
    if !(UploadsDir <= path) then None
    else
      match SplitRest(path[|UploadsDir|..])
      case None => None
      case Some(s) => Some(Location(path, s.filename))
  }

  /** `DIRECT_UPLOAD_URL_FORMAT.match(url)` with the bucket name taken literally. */
  function Parse(bucket: string, url: string): (r: Option<Location>)
    ensures r.Some? ==> Prefix(bucket) <= url && url[|Prefix(bucket)|..] == r.value.path
    ensures r.Some? ==> UploadsDir <= r.value.path
  {
    var pre := Prefix(bucket);
    if !(pre <= url) then None else ParsePath(url[|pre|..])
  }

  /** The match on the stored attribute: matching `nil` gives no match. */
  function Match(bucket: string, url: Option<string>): Option<Location> {
    match url
    case None => None
    case Some(u) => Parse(bucket, u)
  }

  /**
   * The shape the pattern describes: the fixed origin and bucket, `uploads/`,
   * a non-empty segment (which may itself hold slashes), a slash and a
   * non-empty filename, with no newline after the bucket.
   */
  ghost predicate Shape(bucket: string, url: string, segment: string, filename: string) {
    url == Prefix(bucket) + (UploadsDir + (segment + "/" + filename))
    && segment != [] && filename != []
    && NoNewline(segment) && NoNewline(filename)
  }

  lemma StripPrefix(pre: string, rest: string)
    ensures pre <= pre + rest && (pre + rest)[|pre|..] == rest
  {
    assert (pre + rest)[..|pre|] == pre;
  }

  lemma JoinPrefix(pre: string, s: string)
    requires pre <= s
    ensures s == pre + s[|pre|..]
  {
  }

  /** Acceptance implies the shape, with the captures where the pattern puts them. */
  lemma ParseSound(bucket: string, url: string)
    requires Parse(bucket, url).Some?
    ensures var loc := Parse(bucket, url).value;
      exists segment :: Shape(bucket, url, segment, loc.filename)
        && loc.path == UploadsDir + (segment + "/" + loc.filename)
  {
    var pre := Prefix(bucket);
    var path := url[|pre|..];
    JoinPrefix(pre, url);
    JoinPrefix(UploadsDir, path);
    var s := SplitRest(path[|UploadsDir|..]).value;
    assert Shape(bucket, url, s.segment, s.filename);
  }

  /**
   * Every string of the shape is accepted; the captured path is everything
   * after the bucket, and the captured filename is never longer than the
   * shape's (the greedy segment takes as much as it can).
   */
  lemma ParseComplete(bucket: string, url: string, segment: string, filename: string)
    requires Shape(bucket, url, segment, filename)
    ensures Parse(bucket, url).Some?
    ensures Parse(bucket, url).value.path == UploadsDir + (segment + "/" + filename)
    ensures |Parse(bucket, url).value.filename| <= |filename|
  {
    var rest := segment + "/" + filename;
    StripPrefix(Prefix(bucket), UploadsDir + rest);
    StripPrefix(UploadsDir, rest);
    SplitComplete(segment, filename);
  }

  /** A filename without slashes is captured exactly. */
  lemma ParseExact(bucket: string, url: string, segment: string, filename: string)
    requires Shape(bucket, url, segment, filename)
    requires forall i :: 0 <= i < |filename| ==> filename[i] != '/'
    ensures Parse(bucket, url) == Some(Location(UploadsDir + (segment + "/" + filename), filename))
  {
    var rest := segment + "/" + filename;
    StripPrefix(Prefix(bucket), UploadsDir + rest);
    StripPrefix(UploadsDir, rest);
    SplitExact(segment, filename);
  }

  /**
   * The filename is the text after the last slash: a slash can appear in it
   * only as its final character, and not at all when the URL does not end in one.
   */
  lemma FilenameAfterLastSlash(bucket: string, url: string)
    requires Parse(bucket, url).Some?
    ensures var f := Parse(bucket, url).value.filename;
      forall i :: 0 <= i < |f| - 1 ==> f[i] != '/'
    ensures var f := Parse(bucket, url).value.filename;
      url[|url| - 1] != '/' ==> forall i :: 0 <= i < |f| ==> f[i] != '/'
  {
    var path := url[|Prefix(bucket)|..];
    SplitFilenameSlashes(path[|UploadsDir|..]);
    FilenameEndsUrl(bucket, url);
  }

  /** The captured filename is non-empty and ends where the URL ends. */
  lemma FilenameEndsUrl(bucket: string, url: string)
    requires Parse(bucket, url).Some?
    ensures var f := Parse(bucket, url).value.filename;
      f != [] && f[|f| - 1] == url[|url| - 1]
  {
    var pre := Prefix(bucket);
    var path := url[|pre|..];
    var rest := path[|UploadsDir|..];
    var sp := SplitRest(rest).value;
    JoinPrefix(pre, url);
    JoinPrefix(UploadsDir, path);
    assert rest[|rest| - 1] == sp.filename[|sp.filename| - 1];
    assert path[|path| - 1] == rest[|rest| - 1];
  }

  /**
   * The end anchor is `\z`, not `$`: with a newline-free bucket, nothing with
   * a newline, such as a second line appended to a valid URL, is accepted.
   */
  lemma AcceptedHasNoNewline(bucket: string, url: string)
    requires NoNewline(bucket)
    requires Parse(bucket, url).Some?
    ensures NoNewline(url)
  {
    var pre := Prefix(bucket);
    var path := url[|pre|..];
    var s := SplitRest(path[|UploadsDir|..]).value;
    JoinPrefix(pre, url);
    JoinPrefix(UploadsDir, path);
    NoNewlineConcat(s.segment, "/");
    NoNewlineConcat(s.segment + "/", s.filename);
    NoNewlineConcat(UploadsDir, path[|UploadsDir|..]);
    NoNewlineConcat(Origin, bucket);
    NoNewlineConcat(Origin + bucket, "/");
    NoNewlineConcat(pre, path);
  }

  lemma NoNewlineConcat(a: string, b: string)
    requires NoNewline(a) && NoNewline(b)
    ensures NoNewline(a + b)
  {
    forall i | 0 <= i < |a + b| ensures (a + b)[i] != '\n' {
      if i >= |a| { assert (a + b)[i] == b[i - |a|]; }
    }
  }

  /**
   * The documented valid location, `uploads/<segment>/foo.jpg` in the bucket
   * `myapp-development`, is accepted with the expected captures for any
   * newline-free segment (the documented one is a UUID).
   */
  lemma DocumentedExampleAccepted(segment: string)
    requires segment != [] && NoNewline(segment)
    ensures var path := UploadsDir + (segment + "/" + "foo.jpg");
      Parse("myapp-development", Prefix("myapp-development") + path) == Some(Location(path, "foo.jpg"))
  {
    PlainFilename("foo.jpg");
    ParseExact("myapp-development", Prefix("myapp-development") + (UploadsDir + (segment + "/" + "foo.jpg")),
               segment, "foo.jpg");
  }

  lemma PlainFilename(f: string)
    requires forall i :: 0 <= i < |f| ==> f[i] != '/' && f[i] != '\n'
    ensures NoNewline(f) && forall i :: 0 <= i < |f| ==> f[i] != '/'
  {
  }

  /** The documented malicious location is rejected, whatever the bucket. */
  lemma DocumentedAttackRejected(bucket: string)
    ensures Parse(bucket, "http://haxor.com/virus.exe") == None
  {
    var pre := Prefix(bucket);
    assert pre[4] == 's';
  }

  // ---------------------------------------------------------------------
  // The pattern as written interpolates the bucket name into the regular
  // expression without escaping it, so each `.` of the name matches any
  // character but a newline.

  /**
   * The characters S3 allows in a bucket name, including the capitals and
   * `_` of older names; of them only `.` is special in a pattern.
   */
  predicate IsBucketName(b: string) {
    forall i :: 0 <= i < |b| ==>
      'a' <= b[i] <= 'z' || 'A' <= b[i] <= 'Z' || '0' <= b[i] <= '9' || b[i] == '.' || b[i] == '-' || b[i] == '_'
  }

  /** The bucket name read as a pattern matched against `segment`. */
  predicate BucketPatternMatches(bucket: string, segment: string) {
    |segment| == |bucket|
    && forall i :: 0 <= i < |bucket| ==> if bucket[i] == '.' then segment[i] != '\n' else segment[i] == bucket[i]
  }

  /** `DIRECT_UPLOAD_URL_FORMAT.match(url)` as the source builds the pattern. */
  function ParseAsWritten(bucket: string, url: string): (r: Option<Location>)
    requires IsBucketName(bucket)
    ensures r.Some? ==> |r.value.path| < |url| && url[|url| - |r.value.path|..] == r.value.path
    ensures r.Some? ==> UploadsDir <= r.value.path
  {
    var n := |Origin| + |bucket|;
    if |url| <= n || url[..|Origin|] != Origin || !BucketPatternMatches(bucket, url[|Origin|..n]) || url[n] != '/' then None
    else
      var r := ParsePath(url[n + 1..]);
      assert r.Some? ==> url[|url| - |r.value.path|..] == url[n + 1..];
      r
  }

  /** With no `.` in the bucket name the pattern as written is the literal one. */
  lemma AsWrittenAgreesWithoutDots(bucket: string, url: string)
    requires IsBucketName(bucket)
    requires '.' !in bucket
    ensures ParseAsWritten(bucket, url) == Parse(bucket, url)
  {
    var n := |Origin| + |bucket|;
    if |url| > n {
      PrefixParts(bucket, url);
      DotFreePattern(bucket, url[|Origin|..n]);
      assert url[n + 1..] == url[|Prefix(bucket)|..];
    }
  }

  /** A bucket pattern without `.` matches only the bucket name itself. */
  lemma DotFreePattern(bucket: string, segment: string)
    requires '.' !in bucket
    ensures BucketPatternMatches(bucket, segment) <==> segment == bucket
  {
    if BucketPatternMatches(bucket, segment) {
      forall i | 0 <= i < |bucket| ensures segment[i] == bucket[i] {
        assert bucket[i] != '.' by { assert bucket[i] in bucket; }
      }
    }
  }

  /** The literal prefix test, read piece by piece: origin, bucket name, slash. */
  lemma PrefixParts(bucket: string, url: string)
    requires |url| > |Origin| + |bucket|
    ensures var n := |Origin| + |bucket|;
      (Prefix(bucket) <= url)
        <==> (url[..|Origin|] == Origin && url[|Origin|..n] == bucket && url[n] == '/')
  {
    var n := |Origin| + |bucket|;
    assert url[..|Prefix(bucket)|] == url[..|Origin|] + url[|Origin|..n] + [url[n]];
  }

  /** Whatever the literal pattern accepts, the pattern as written accepts with the same captures. */
  lemma AsWrittenAcceptsLiteral(bucket: string, url: string)
    requires IsBucketName(bucket)
    requires Parse(bucket, url).Some?
    ensures ParseAsWritten(bucket, url) == Parse(bucket, url)
  {
    var n := |Origin| + |bucket|;
    PrefixParts(bucket, url);
    assert BucketPatternMatches(bucket, url[|Origin|..n]);
    assert url[n + 1..] == url[|Prefix(bucket)|..];
  }

  /**
   * Any name the bucket pattern matches other than the bucket's own gives a
   * location the pattern as written accepts and the literal pattern rejects.
   */
  lemma AsWrittenAcceptsForeignName(bucket: string, segment: string, path: string)
    requires IsBucketName(bucket)
    requires BucketPatternMatches(bucket, segment) && segment != bucket
    requires ParsePath(path).Some?
    ensures ParseAsWritten(bucket, Origin + segment + "/" + path) == ParsePath(path)
    ensures Parse(bucket, Origin + segment + "/" + path) == None
  {
    var url := Origin + segment + "/" + path;
    var n := |Origin| + |bucket|;
    assert url[..|Origin|] == Origin;
    assert url[|Origin|..n] == segment;
    assert url[n + 1..] == path;
    PrefixParts(bucket, url);
  }

  /**
   * A location in another bucket: with the bucket `my.bucket`, the pattern as
   * written accepts a URL naming the bucket `myxbucket`, which the literal
   * pattern rejects.
   */
  lemma AsWrittenAcceptsForeignBucket()
    ensures var path := UploadsDir + ("a" + "/" + "b.png");
      ParseAsWritten("my.bucket", Origin + "myxbucket" + "/" + path) == Some(Location(path, "b.png"))
    ensures Parse("my.bucket", Origin + "myxbucket" + "/" + UploadsDir + ("a" + "/" + "b.png")) == None
  {
    var path := UploadsDir + ("a" + "/" + "b.png");
    StripPrefix(UploadsDir, "a" + "/" + "b.png");
    PlainFilename("b.png");
    SplitExact("a", "b.png");
    assert ParsePath(path) == Some(Location(path, "b.png"));
    assert BucketPatternMatches("my.bucket", "myxbucket");
    assert "myxbucket"[2] != "my.bucket"[2];
    AsWrittenAcceptsForeignName("my.bucket", "myxbucket", path);
  }
}
