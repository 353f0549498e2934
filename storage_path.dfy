/** The split of a Cloud Storage path that both the files indexer and the
    GCS indexer perform: every `gs://` is removed, the bucket is the text
    before the first `/` (`split('/')[0]`) and the object is the text after
    it (`split('/', 1)[1]`, an IndexError when there is no `/`). */
module StoragePath {
  import opened Wrappers
  import opened Text

  function Trimmed(path: string): string {
    ReplaceAll(path, "gs://", "")
  }

  /** The bucket and object named by `path`; None where the source raises
      IndexError. */
  function SplitPath(path: string): (r: Option<(string, string)>)
    ensures r.None? <==> '/' !in Trimmed(path)
    ensures r.None? ==> Split(Trimmed(path), "/") == [Trimmed(path)]
    ensures r.Some? ==> '/' !in r.value.0
    ensures r.Some? ==> Trimmed(path) == r.value.0 + "/" + r.value.1
    ensures r.Some? ==> Split(Trimmed(path), "/")[0] == r.value.0
  {
    var t := Trimmed(path);
    IndexOfChar(t, '/');
    match IndexOf(t, "/")
    case None =>
      SplitWithoutSep(t, '/');
      None
    case Some(i) =>
      assert t == t[..i] + "/" + t[i + 1..];
      SplitAtFirst(t[..i], '/', t[i + 1..]);
      Some((t[..i], t[i + 1..]))
  }

  /** A path whose trimmed text is `bucket/object`, with no `/` in the
      bucket, splits into exactly that bucket and object. */
  lemma SplitPathAt(path: string, bucket: string, obj: string)
    requires Trimmed(path) == bucket + "/" + obj && '/' !in bucket
    ensures SplitPath(path) == Some((bucket, obj))
  {
    var t := Trimmed(path);
    var r := SplitPath(path);
    assert t[|bucket|] == '/';
    var b := r.value.0;
    assert t[|b|] == '/';
    assert b == t[..|b|];
    assert r.value.1 == t[|b| + 1..];
  }
}
