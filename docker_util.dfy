/** The image names of `docker_util.py`: where an image pulled from a public
    registry is copied to in the project's Google Container Registry. The
    docker pull, tag and push commands themselves are left out. */
module DockerUtil {
  import opened Text

  /** `get_image_name`: the image's basename, under `elasticsearch/` when
      the path mentions `elasticsearch` anywhere. */
  function ImageName(path: string): (r: string)
    ensures EndsWith(r, Basename(path))
    ensures '/' in r <==> Contains(path, "elasticsearch")
    ensures '/' in r ==> r == "elasticsearch" + "/" + Basename(path)
  {
    if Contains(path, "elasticsearch") then
      var r := "elasticsearch" + "/" + Basename(path);
      assert r[13] == '/';
      r
    else Basename(path)
  }

  /** An image name holds at most one `/`. */
  lemma ImageNameOneSlash(path: string, i: nat, j: nat)
    requires i < j < |ImageName(path)| && ImageName(path)[i] == '/'
    ensures ImageName(path)[j] != '/'
  {
    var r := ImageName(path);
    assert r[i] in r;
    assert '/' !in "elasticsearch";
    SingleSlash("elasticsearch", Basename(path), i, j);
  }

  lemma SingleSlash(a: string, b: string, i: nat, j: nat)
    requires '/' !in a && '/' !in b
    requires i < j < |a + "/" + b| && (a + "/" + b)[i] == '/'
    ensures (a + "/" + b)[j] != '/'
  {
    var s := a + "/" + b;
    assert s[j] == b[j - |a| - 1];
  }

  /** `get_gcr_image_path`. */
  function GcrImagePath(path: string, project: string): (r: string)
    ensures StartsWith(r, "gcr.io/")
    ensures EndsWith(r, ImageName(path))
  {
    var image := ImageName(path);
    Affixes("gcr.io/", project + "/", image);
    "gcr.io/" + (project + "/") + image
  }

  lemma Affixes(a: string, b: string, c: string)
    ensures StartsWith(a + b + c, a) && EndsWith(a + b + c, c)
  {
    var s := a + b + c;
    assert s[..|a|] == a;
    assert s[|s| - |c|..] == c;
  }

  /** For a project id without `/`, the registry path splits into the
      registry, the project, `elasticsearch` when the image needs that
      directory, and the image's basename. */
  lemma GcrImagePathParts(path: string, project: string)
    requires '/' !in project
    ensures Contains(path, "elasticsearch") ==>
      Split(GcrImagePath(path, project), "/") == ["gcr.io", project, "elasticsearch", Basename(path)]
    ensures !Contains(path, "elasticsearch") ==>
      Split(GcrImagePath(path, project), "/") == ["gcr.io", project, Basename(path)]
  {
    var image, base := ImageName(path), Basename(path);
    SplitTwoDirs(project, image);
    assert Split(GcrImagePath(path, project), "/") == ["gcr.io", project] + Split(image, "/");
    ImageNameParts(path);
    if Contains(path, "elasticsearch") {
      assert ["gcr.io", project] + ["elasticsearch", base] == ["gcr.io", project, "elasticsearch", base];
    } else {
      assert ["gcr.io", project] + [base] == ["gcr.io", project, base];
    }
  }

  /** The image name splits into the optional `elasticsearch` directory and
      the basename. */
  lemma ImageNameParts(path: string)
    ensures Contains(path, "elasticsearch") ==> Split(ImageName(path), "/") == ["elasticsearch", Basename(path)]
    ensures !Contains(path, "elasticsearch") ==> Split(ImageName(path), "/") == [Basename(path)]
  {
    var base := Basename(path);
    SplitWithoutSep(base, '/');
    if Contains(path, "elasticsearch") {
      SplitAtFirst("elasticsearch", '/', base);
      assert Split(ImageName(path), "/") == ["elasticsearch"] + [base];
    } else {
      assert ImageName(path) == base;
    }
  }

  lemma SplitTwoDirs(b: string, c: string)
    requires '/' !in b
    ensures Split("gcr.io/" + (b + "/") + c, "/") == ["gcr.io", b] + Split(c, "/")
  {
    assert "gcr.io/" + (b + "/") + c == "gcr.io" + ['/'] + (b + ['/'] + c);
    SplitAtFirst("gcr.io", '/', b + ['/'] + c);
    SplitAtFirst(b, '/', c);
  }

  /** Every character of a pattern found in `s` occurs in `s`. */
  lemma ContainedChars(s: string, p: string, k: nat)
    requires Contains(s, p) && k < |p|
    ensures p[k] in s
  {
    var i := IndexOf(s, p).value;
    assert s[i..i + |p|][k] == s[i + k];
  }

  /** The operator image of `prepare_cluster` keeps its basename. */
  lemma OperatorImageName()
    ensures ImageName("docker.elastic.co/eck" + "/" + "eck-operator:1.1.2") == "eck-operator:1.1.2"
  {
    var path := "docker.elastic.co/eck" + "/" + "eck-operator:1.1.2";
    assert forall j :: 0 <= j < 18 ==> "eck-operator:1.1.2"[j] != '/';
    BasenameAfterSlash("docker.elastic.co/eck", "eck-operator:1.1.2");
    assert forall j :: 0 <= j < |path| ==> path[j] != 'h';
    if Contains(path, "elasticsearch") {
      ContainedChars(path, "elasticsearch", 12);
    }
  }

  /** An image kept in a registry's `elasticsearch` directory goes under
      `elasticsearch/`. */
  lemma ElasticsearchDirImageName(registry: string, name: string)
    requires '/' !in name
    ensures ImageName(registry + "/" + "elasticsearch" + "/" + name) == "elasticsearch" + "/" + name
  {
    var dir := registry + "/" + "elasticsearch";
    BasenameAfterSlash(dir, name);
    assert dir + "/" + name == (registry + "/") + "elasticsearch" + ("/" + name);
    ContainsInMiddle(registry + "/", "elasticsearch", "/" + name);
  }

  /** The Elasticsearch image of `prepare_cluster`. */
  lemma ElasticsearchImageName()
    ensures ImageName("docker.elastic.co" + "/" + "elasticsearch" + "/" + "elasticsearch:7.7.1")
            == "elasticsearch" + "/" + "elasticsearch:7.7.1"
  {
    assert forall j :: 0 <= j < 19 ==> "elasticsearch:7.7.1"[j] != '/';
    ElasticsearchDirImageName("docker.elastic.co", "elasticsearch:7.7.1");
  }
}
