/**
 * `post_process_required?`: whether the uploaded content type names an image
 * format that needs post-processing. The source's pattern is
 *   ^(image|(x-)?application)/(bmp|gif|jpeg|jpg|pjpeg|png|x-png)$
 * and in Ruby `^` and `$` anchor at line boundaries, so the pattern succeeds
 * when some line of the content type is one of the listed types.
 */
module ContentType {
  import opened Wrappers

  const MediaTypes: seq<string> := ["image", "application", "x-application"]
  const SubTypes: seq<string> := ["bmp", "gif", "jpeg", "jpg", "pjpeg", "png", "x-png"]

  /** `s` is, in full, `<media type>/<subtype>` from the two lists. */
  predicate IsListed(s: string) {
    exists m, t :: m in MediaTypes && t in SubTypes && s == m + "/" + t
  }

  /** `s[i..j]` is a whole line of `s`: `^` holds at `i` and `$` at `j`. */
  predicate IsLine(s: string, i: int, j: int) {
    0 <= i <= j <= |s| && (i == 0 || s[i - 1] == '\n') && (j == |s| || s[j] == '\n')
  }

  /** `%r{^(...)/(...)$}.match(s)` succeeds. */
  predicate SomeLineListed(s: string) {
    exists i, j | 0 <= i <= j <= |s| :: IsLine(s, i, j) && IsListed(s[i..j])
  }

  /** `post_process_required?`: matching `nil` yields `nil`, which is not present. */
  predicate PostProcessRequired(contentType: Option<string>) {
    contentType.Some? && SomeLineListed(contentType.value)
  }

  lemma ListedIntro(m: string, t: string)
    requires m in MediaTypes && t in SubTypes
    ensures IsListed(m + "/" + t)
  {
  }

  /** For a single-line content type the classifier is a full-string match against the list. */
  lemma SingleLineIsFullMatch(s: string)
    requires '\n' !in s
    ensures PostProcessRequired(Some(s)) <==> IsListed(s)
  {
    if SomeLineListed(s) {
      var i, j :| 0 <= i <= j <= |s| && IsLine(s, i, j) && IsListed(s[i..j]);
      assert IsLine(s, i, j);
      assert s[i..j] == s;
    }
    if IsListed(s) {
      assert IsLine(s, 0, |s|) && s[0..|s|] == s;
    }
  }

  /**
   * Splitting a single-line content type at its first slash: it is
   * post-processed exactly when the part before the slash is a listed media
   * type and the part after it a listed subtype.
   */
  lemma FirstSlashDecides(s: string, m: string, t: string)
    requires '\n' !in s && '/' !in m && s == m + "/" + t
    ensures PostProcessRequired(Some(s)) <==> m in MediaTypes && t in SubTypes
  {
    SingleLineIsFullMatch(s);
    if IsListed(s) {
      var m2, t2 :| m2 in MediaTypes && t2 in SubTypes && s == m2 + "/" + t2;
      MediaTypeHasNoSlash(m2);
      SameFirstSegment(m, t, m2, t2);
    }
    if m in MediaTypes && t in SubTypes {
      ListedIntro(m, t);
    }
  }

  lemma MediaTypeHasNoSlash(m: string)
    requires m in MediaTypes
    ensures '/' !in m
  {
  }

  /** Two splits of a string at a slash that neither first part contains are the same split. */
  lemma SameFirstSegment(m: string, t: string, m2: string, t2: string)
    requires '/' !in m && '/' !in m2 && m + "/" + t == m2 + "/" + t2
    ensures m == m2 && t == t2
  {
    var s := m + "/" + t;
    assert s[|m|] == '/' && s[|m2|] == '/';
    assert forall i | 0 <= i < |m| :: s[i] == m[i];
    assert forall i | 0 <= i < |m2| :: s[i] == m2[i];
    assert m == s[..|m|] && m2 == (m2 + "/" + t2)[..|m2|];
    assert t == s[|m| + 1..] && t2 == (m2 + "/" + t2)[|m2| + 1..];
  }

  /** Every listed type, on a line of its own, is post-processed. */
  lemma ListedIsPostProcessed(m: string, t: string)
    requires m in MediaTypes && t in SubTypes
    ensures PostProcessRequired(Some(m + "/" + t))
  {
    var s := m + "/" + t;
    ListedIntro(m, t);
    assert IsLine(s, 0, |s|) && s[0..|s|] == s;
  }

  /** `image/png`, the common case, is post-processed. */
  lemma PngIsPostProcessed()
    ensures PostProcessRequired(Some("image/png"))
  {
    ListedIsPostProcessed("image", "png");
    assert "image" + "/" + "png" == "image/png";
  }

  /** Plain text, and a missing type, are copied as they are. */
  lemma PlainTextIsCopied()
    ensures !PostProcessRequired(Some("text/plain"))
    ensures !PostProcessRequired(None)
  {
    FirstSlashDecides("text/plain", "text", "plain");
  }

  /** An `application` type with an unlisted subtype is copied. */
  lemma PdfIsCopied()
    ensures !PostProcessRequired(Some("application/pdf"))
  {
    FirstSlashDecides("application/pdf", "application", "pdf");
  }

  /** As written, a listed type on any line of the value is enough. */
  lemma SecondLineCounts()
    ensures PostProcessRequired(Some("text/plain\nimage/png"))
  {
    var s := "text/plain\nimage/png";
    assert IsLine(s, 11, |s|);
    assert s[11..|s|] == "image" + "/" + "png";
    ListedIntro("image", "png");
  }
}
