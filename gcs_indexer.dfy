/** The GCS indexer: a pattern such as
    `gs://genomics-public-data/platinum-genomes/bam/PRIMARY_KEY_` names a
    bucket, a listing prefix (the object text before `PRIMARY_KEY`) and a
    regular expression in which `PRIMARY_KEY` stands for a `(\w+)` group.
    Every object listed under the prefix must match the expression, and the
    text of its first group is its primary key. The listing is a parameter;
    the identified keys, which the source only prints, are returned. */
module GcsIndexer {
  import opened Wrappers
  import opened Text
  import opened StoragePath

  const Placeholder := "PRIMARY_KEY"

  /** The text that takes the placeholder's place in the expression. */
  const WordGroup := "(\\w+)"

  datatype GcsError =
    | PatternWithoutObject(pattern: string)
    | PatternWithoutPlaceholder(pattern: string)
    | NoPrimaryKey(objPath: string)
    | NoSuchGroup(objPath: string)

  /** Where a pattern lists its objects. */
  datatype Listing = Listing(bucket: string, prefix: string)

  /** Bucket and listing prefix: the prefix is the object part up to its first
      `PRIMARY_KEY`, a ValueError of `str.index` when there is none. */
  function ParseListing(pattern: string): (r: Result<Listing, GcsError>)
    ensures r.Failure? <==>
      SplitPath(pattern).None? || !Contains(SplitPath(pattern).value.1, Placeholder)
    ensures r.Failure? && SplitPath(pattern).None? ==> r.error == PatternWithoutObject(pattern)
    ensures r.Failure? && SplitPath(pattern).Some? ==> r.error == PatternWithoutPlaceholder(pattern)
    ensures r.Success? ==>
      && r.value.bucket == Split(Trimmed(pattern), "/")[0]
      && '/' !in r.value.bucket
      && Trimmed(pattern) == r.value.bucket + "/" + SplitPath(pattern).value.1
      && StartsWith(SplitPath(pattern).value.1, r.value.prefix + Placeholder)
      && !Contains(r.value.prefix, Placeholder)
  {
    match SplitPath(pattern)
    case None => Failure(PatternWithoutObject(pattern))
    case Some(loc) =>
      match IndexOf(loc.1, Placeholder)
      case None => Failure(PatternWithoutPlaceholder(pattern))
      case Some(i) =>
        PlaceholderFollows(loc.1, i);
        NothingBeforeFirst(loc.1, Placeholder, i);
        Success(Listing(loc.0, loc.1[..i]))
  }

  /** Text before an occurrence is followed by the placeholder. */
  lemma PlaceholderFollows(s: string, i: nat)
    requires IndexOf(s, Placeholder) == Some(i)
    ensures StartsWith(s, s[..i] + Placeholder)
  {
    assert s[..i + |Placeholder|] == s[..i] + Placeholder;
  }

  /** The worked example of the source's comment,
      `gs://genomics-public-data/platinum-genomes/bam/PRIMARY_KEY_`, written
      in pieces. */
  lemma ParseListingExample()
    ensures ParseListing("gs://" + "genomics-public-data/" + "platinum-genomes/bam/" + "PRIMARY_KEY_")
         == Success(Listing("genomics-public-data", "platinum-genomes/bam/"))
  {
    ExampleSplit();
    ExamplePlaceholder();
    var o := "platinum-genomes/bam/" + "PRIMARY_KEY_";
    assert o[..21] == "platinum-genomes/bam/";
    ParseListingAt("gs://" + "genomics-public-data/" + "platinum-genomes/bam/" + "PRIMARY_KEY_",
                   "genomics-public-data", o, 21);
  }

  lemma ExampleSplit()
    ensures SplitPath("gs://" + "genomics-public-data/" + "platinum-genomes/bam/" + "PRIMARY_KEY_")
         == Some(("genomics-public-data", "platinum-genomes/bam/" + "PRIMARY_KEY_"))
  {
    ExampleTrimmed();
    var o := "platinum-genomes/bam/" + "PRIMARY_KEY_";
    assert "genomics-public-data/" + "platinum-genomes/bam/" + "PRIMARY_KEY_" == "genomics-public-data" + "/" + o;
    SplitPathAt("gs://" + "genomics-public-data/" + "platinum-genomes/bam/" + "PRIMARY_KEY_",
                "genomics-public-data", o);
  }

  lemma ExamplePlaceholder()
    ensures IndexOf("platinum-genomes/bam/" + "PRIMARY_KEY_", Placeholder) == Some(21)
  {
    var o := "platinum-genomes/bam/" + "PRIMARY_KEY_";
    assert o[21..21 + |Placeholder|] == Placeholder;
    FirstOccurrence(o, Placeholder, 21);
  }

  lemma ParseListingAt(pattern: string, bucket: string, obj: string, i: nat)
    requires SplitPath(pattern) == Some((bucket, obj))
    requires IndexOf(obj, Placeholder) == Some(i)
    ensures ParseListing(pattern) == Success(Listing(bucket, obj[..i]))
  {
  }

  lemma ExampleTrimmed()
    ensures Trimmed("gs://" + "genomics-public-data/" + "platinum-genomes/bam/" + "PRIMARY_KEY_")
         == "genomics-public-data/" + "platinum-genomes/bam/" + "PRIMARY_KEY_"
  {
    var t := "genomics-public-data/" + "platinum-genomes/bam/" + "PRIMARY_KEY_";
    var p := "gs://" + "genomics-public-data/" + "platinum-genomes/bam/" + "PRIMARY_KEY_";
    assert p == "gs://" + t;
    assert ':' !in "genomics-public-data/" && ':' !in "platinum-genomes/bam/" && ':' !in "PRIMARY_KEY_";
    assert ':' !in t;
    NoSchemeInside(t);
    assert p[..5] == "gs://" && p[5..] == t;
    assert ReplaceAll(p, "gs://", "") == "" + ReplaceAll(p[5..], "gs://", "");
  }

  /** A text without `gs:` loses nothing to the scheme replacement. */
  lemma {:induction false} NoSchemeInside(t: string)
    requires ':' !in t
    ensures ReplaceAll(t, "gs://", "") == t
    decreases |t|
  {
    if |t| >= 5 {
      assert t[..5] != "gs://" by { assert t[2] in t; }
      NoSchemeInside(t[1..]);
      assert [t[0]] + t[1..] == t;
    }
  }

  // ---------------------------------------------------------------------
  // The regular expression `re.compile(pattern.replace('PRIMARY_KEY', '(\w+)'))`

  /** The literal pieces between the groups: the expression is
      `segs[0] (\w+) segs[1] ... (\w+) segs[|segs|-1]`. */
  function Segments(pattern: string): (segs: seq<string>)
    ensures |segs| >= 1
    ensures ReplaceAll(pattern, Placeholder, WordGroup) == Join(segs, WordGroup)
  {
    ReplaceIsJoinSplit(pattern, Placeholder, WordGroup);
    Split(pattern, Placeholder)
  }

  /** `\w` of a byte-string expression: ASCII letters, digits and `_`. */
  predicate IsWordChar(c: char) {
    ('a' <= c <= 'z') || ('A' <= c <= 'Z') || ('0' <= c <= '9') || c == '_'
  }

  /** One character of a literal piece against one character of the text:
      `.` takes any character but a newline, anything else itself. */
  predicate CharMatches(p: char, c: char) {
    if p == '.' then c != '\n' else p == c
  }

  /** The literal piece `lit` matches the start of `t`. */
  predicate LitMatches(lit: string, t: string) {
    |lit| <= |t| && forall k :: 0 <= k < |lit| ==> CharMatches(lit[k], t[k])
  }

  /** The length of the run of word characters that `t` starts with. */
  function WordRun(t: string): (n: nat)
    ensures n <= |t|
    ensures forall k :: 0 <= k < n ==> IsWordChar(t[k])
    ensures n < |t| ==> !IsWordChar(t[n])
    decreases |t|
  {
    if |t| > 0 && IsWordChar(t[0]) then
      assert forall k :: 1 <= k < |t| ==> t[1..][k - 1] == t[k];
      1 + WordRun(t[1..])
    else 0
  }

  /** `re.match`: the expression with pieces `segs` matches a prefix of `t`. */
  predicate Matches(segs: seq<string>, t: string)
    requires |segs| >= 1
    decreases |segs|, 0
  {
    && LitMatches(segs[0], t)
    && (|segs| == 1 || GroupThenMatches(segs[1..], t[|segs[0]|..], WordRun(t[|segs[0]|..])))
  }

  /** A `(\w+)` group of some length `1..k` at the start of `u`, followed by
      a match of `segs`. */
  predicate GroupThenMatches(segs: seq<string>, u: string, k: nat)
    requires |segs| >= 1 && k <= |u|
    decreases |segs|, 1, k
  {
    k >= 1 && (Matches(segs, u[k..]) || GroupThenMatches(segs, u, k - 1))
  }

  /** The greedy group: the longest length `1..k` after which `segs` still
      matches, which is the length backtracking settles on. */
  function Greedy(segs: seq<string>, u: string, k: nat): (r: Option<nat>)
    requires |segs| >= 1 && k <= |u|
    ensures r.Some? <==> GroupThenMatches(segs, u, k)
    ensures r.Some? ==> 1 <= r.value <= k && Matches(segs, u[r.value..])
    ensures r.Some? ==> forall j :: r.value < j <= k ==> !Matches(segs, u[j..])
    ensures r.None? ==> forall j :: 1 <= j <= k ==> !Matches(segs, u[j..])
    decreases k
  {
    if k == 0 then None
    else if Matches(segs, u[k..]) then Some(k)
    else Greedy(segs, u, k - 1)
  }

  /** The length of the first group in a successful match: the greedy
      choice among the word characters after the first literal piece. */
  function GroupLength(segs: seq<string>, t: string): (n: nat)
    requires |segs| >= 2 && Matches(segs, t)
    ensures |segs[0]| <= |t|
    ensures 1 <= n <= WordRun(t[|segs[0]|..])
    ensures Matches(segs[1..], t[|segs[0]|..][n..])
    ensures forall j :: n < j <= WordRun(t[|segs[0]|..]) ==> !Matches(segs[1..], t[|segs[0]|..][j..])
  {
    Greedy(segs[1..], t[|segs[0]|..], WordRun(t[|segs[0]|..])).value
  }

  /** `match.group(1)` of a successful match with at least one group. */
  function FirstGroup(segs: seq<string>, t: string): (g: string)
    requires |segs| >= 2 && Matches(segs, t)
    ensures |g| == GroupLength(segs, t) >= 1
    ensures forall k :: 0 <= k < |g| ==> IsWordChar(g[k])
    ensures |segs[0]| + |g| <= |t| && t[|segs[0]|..|segs[0]| + |g|] == g
  {
    var u := t[|segs[0]|..];
    var n := GroupLength(segs, t);
    var g := u[..n];
    assert |g| == n;
    assert forall k :: 0 <= k < n ==> g[k] == u[k];
    g
  }

  /** The keys of the listed objects, in listing order: each object path is
      `gs://<bucket>/<name>`; one that does not match is a ValueError, and a
      match of an expression without a group an IndexError. */
  function KeysOf(segs: seq<string>, bucket: string, names: seq<string>): (r: Result<seq<(string, string)>, GcsError>)
    requires |segs| >= 1
    ensures r.Success? ==> |r.value| == |names|
    ensures r.Success? ==> forall i :: 0 <= i < |names| ==>
      var path := "gs://" + bucket + "/" + names[i];
      && Matches(segs, path) && |segs| >= 2
      && r.value[i] == (FirstGroup(segs, path), path)
    decreases |names|
  {
    if |names| == 0 then Success([])
    else
      var path := "gs://" + bucket + "/" + names[0];
      if !Matches(segs, path) then Failure(NoPrimaryKey(path))
      else if |segs| == 1 then Failure(NoSuchGroup(path))
      else match KeysOf(segs, bucket, names[1..])
        case Failure(e) => Failure(e)
        case Success(rest) => Success([(FirstGroup(segs, path), path)] + rest)
  }

  /** A non-empty run of word characters, the text a `(\w+)` group holds. */
  predicate IsWordRun(key: string) {
    |key| >= 1 && forall k :: 0 <= k < |key| ==> IsWordChar(key[k])
  }

  /** `index_gcs_pattern`: parse the pattern, list the bucket under the prefix
      with `listBlobs`, then identify the key of every listed object. It
      succeeds exactly when every listed path matches (and the expression
      has a group, unless nothing is listed), giving one key per listed
      object, in listing order. */
  function IndexGcsPattern(pattern: string, listBlobs: (string, string) -> seq<string>):
    (r: Result<seq<(string, string)>, GcsError>)
    ensures ParseListing(pattern).Failure? ==> r == Failure(ParseListing(pattern).error)
    ensures r.Success? ==> ParseListing(pattern).Success?
    ensures ParseListing(pattern).Success? ==>
      var l := ParseListing(pattern).value;
      var names := listBlobs(l.bucket, l.prefix);
      var segs := Segments(pattern);
      && r == KeysOf(segs, l.bucket, names)
      && (r.Success? <==>
            (|names| == 0 || |segs| >= 2)
            && forall i :: 0 <= i < |names| ==> Matches(segs, "gs://" + l.bucket + "/" + names[i]))
      && (r.Success? ==> |r.value| == |names|)
      && (r.Success? ==> forall i :: 0 <= i < |names| ==>
            && r.value[i].1 == "gs://" + l.bucket + "/" + names[i]
            && IsWordRun(r.value[i].0))
  {
    match ParseListing(pattern)
    case Failure(e) => Failure(e)
    case Success(l) =>
      var segs := Segments(pattern);
      var names := listBlobs(l.bucket, l.prefix);
      KeysOfSucceeds(segs, l.bucket, names);
      KeysOf(segs, l.bucket, names)
  }

  /** Every object passes exactly when every listed path matches, and the
      expression has a group or nothing is listed; otherwise the first
      failing path names the error. */
  lemma {:induction false} KeysOfSucceeds(segs: seq<string>, bucket: string, names: seq<string>)
    requires |segs| >= 1
    ensures KeysOf(segs, bucket, names).Success? <==>
      (|names| == 0 || |segs| >= 2) &&
      forall i :: 0 <= i < |names| ==> Matches(segs, "gs://" + bucket + "/" + names[i])
    decreases |names|
  {
    if |names| > 0 {
      KeysOfSucceeds(segs, bucket, names[1..]);
      forall i | 1 <= i < |names| ensures names[1..][i - 1] == names[i] { }
    }
  }

  /** The extracted keys are non-empty runs of word characters. */
  lemma KeysAreWords(segs: seq<string>, bucket: string, names: seq<string>)
    requires |segs| >= 1 && KeysOf(segs, bucket, names).Success?
    ensures forall i :: 0 <= i < |names| ==> IsWordRun(KeysOf(segs, bucket, names).value[i].0)
  {
  }

  /** The match is anchored at the start only: whatever follows a matching
      text, the text with it appended still matches. */
  lemma {:induction false} MatchesExtend(segs: seq<string>, t: string, x: string)
    requires |segs| >= 1 && Matches(segs, t)
    ensures Matches(segs, t + x)
    decreases |segs|, 0
  {
    assert LitMatches(segs[0], t + x) by {
      forall k | 0 <= k < |segs[0]| ensures (t + x)[k] == t[k] { }
    }
    if |segs| > 1 {
      var u := t[|segs[0]|..];
      assert (t + x)[|segs[0]|..] == u + x;
      WordRunExtend(u, x);
      GroupExtend(segs[1..], u, x, WordRun(u), WordRun(u + x));
    }
  }

  lemma {:induction false} GroupExtend(segs: seq<string>, u: string, x: string, k: nat, k': nat)
    requires |segs| >= 1 && k <= k' <= |u + x| && k <= |u|
    requires GroupThenMatches(segs, u, k)
    ensures GroupThenMatches(segs, u + x, k')
    decreases |segs|, 1, k'
  {
    if k' > k {
      GroupExtend(segs, u, x, k, k' - 1);
    } else if Matches(segs, u[k..]) {
      assert (u + x)[k..] == u[k..] + x;
      MatchesExtend(segs, u[k..], x);
    } else {
      GroupExtend(segs, u, x, k - 1, k' - 1);
    }
  }

  lemma {:induction false} WordRunExtend(u: string, x: string)
    ensures WordRun(u) <= WordRun(u + x)
    decreases |u|
  {
    if |u| > 0 && IsWordChar(u[0]) {
      assert (u + x)[1..] == u[1..] + x;
      WordRunExtend(u[1..], x);
    }
  }
}
