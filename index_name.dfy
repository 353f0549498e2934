/** Conversion of a dataset name into an Elasticsearch index name
    (`convert_to_index_name` of the indexer utilities). */
module IndexName {
  import opened Wrappers
  import opened Text

  /** The characters Elasticsearch refuses in an index name. */
  const Prohibited: seq<char> := [' ', '"', '*', '\\', '<', '|', ',', '>', '/', '?']

  /** What happens to one character: a prohibited one becomes `_`, then upper
      case becomes lower case. */
  function NormalizeChar(c: char): (r: char)
    ensures r !in Prohibited && !IsUpper(r)
  {
    var d := if c in Prohibited then '_' else c;
    assert d !in Prohibited;
    if IsUpper(d) then
      assert 'a' <= LowerChar(d) <= 'z';
      LowerChar(d)
    else d
  }

  function Normalize(s: string): (r: string)
    ensures |r| == |s|
    ensures forall k :: 0 <= k < |s| ==> r[k] == NormalizeChar(s[k])
  {
    seq(|s|, k requires 0 <= k < |s| => NormalizeChar(s[k]))
  }

  /** The index name of `s`, character by character: normalise every
      character, then drop the leading run of underscores. */
  function IndexNameOf(s: string): string {
    LStrip(Normalize(s), '_')
  }

  /** A string Elasticsearch accepts as an index name, as far as this
      conversion is concerned. */
  predicate IsIndexName(s: string) {
    && (forall k :: 0 <= k < |s| ==> s[k] !in Prohibited && !IsUpper(s[k]))
    && (|s| > 0 ==> s[0] != '_')
  }

  /** The conversion as the source performs it: one `replace` per prohibited
      character, then `lower`, then `lstrip('_')` when the name starts with
      `_`. */
  method ConvertToIndexName(name: string) returns (s: string)
    ensures s == IndexNameOf(name)
    ensures IsIndexName(s)
    ensures |s| <= |name|
    ensures EndsWith(Normalize(name), s)
  {
    s := name;
    for i := 0 to |Prohibited|
      invariant |s| == |name|
      invariant forall k :: 0 <= k < |s| ==>
        s[k] == if name[k] in Prohibited[..i] then '_' else name[k]
    {
      ReplaceCharPointwise(s, Prohibited[i], '_');
      s := ReplaceAll(s, [Prohibited[i]], "_");
    }
    assert Prohibited[..|Prohibited|] == Prohibited;
    s := Lower(s);
    assert s == Normalize(name);
    if IndexOf(s[..if |s| < 1 then |s| else 1], "_") == Some(0) {
      s := LStrip(s, '_');
    } else {
      assert |s| > 0 ==> s[0] != '_';
    }
    IndexNameIsIndexName(name);
  }

  lemma IndexNameIsIndexName(s: string)
    ensures IsIndexName(IndexNameOf(s))
  {
    var n := Normalize(s);
    var r := IndexNameOf(s);
    forall k | 0 <= k < |r|
      ensures r[k] !in Prohibited && !IsUpper(r[k])
    {
      var j := |n| - |r| + k;
      SuffixAt(n, r, k);
      assert n[j] == NormalizeChar(s[j]);
    }
  }

  lemma SuffixAt(s: string, r: string, k: nat)
    requires EndsWith(s, r) && k < |r|
    ensures r[k] == s[|s| - |r| + k]
  {
    assert r[k] == s[|s| - |r|..][k];
  }

  /** Normalising a string that already is an index name changes nothing. */
  lemma NormalizeIndexName(s: string)
    requires IsIndexName(s)
    ensures Normalize(s) == s
  {
    forall k | 0 <= k < |s|
      ensures Normalize(s)[k] == s[k]
    {
      assert s[k] !in Prohibited;
    }
  }

  /** Converting an index name again gives it back unchanged. */
  lemma IndexNameIdempotent(s: string)
    ensures IndexNameOf(IndexNameOf(s)) == IndexNameOf(s)
  {
    var r := IndexNameOf(s);
    IndexNameIsIndexName(s);
    NormalizeIndexName(r);
  }

  /** A worked example: the slash and the space become underscores, the
      capitals are lowered and the leading underscore is dropped. */
  lemma IndexNameExample()
    ensures IndexNameOf("/My Data") == "my_data"
  {
    NormalizeExample();
    assert LStrip("_my_data", '_') == LStrip("my_data", '_');
  }

  lemma NormalizeExample()
    ensures Normalize("/My Data") == "_my_data"
  {
    var s := "/My Data";
    var n := Normalize(s);
    forall k | 0 <= k < |s|
      ensures n[k] == "_my_data"[k]
    {
      assert n[k] == NormalizeChar(s[k]);
    }
  }
}
