/**
 Advertising the cluster's API resources: one MCP resource for each discovered resource
 that is not a subresource, with an example URI that the resource handlers can read back.
 */
module ListResources {
  import opened Wrappers
  import opened ResourceUri

  datatype ApiResource = ApiResource(name: string, kind: string, namespaced: bool)

  datatype ApiResourceList = ApiResourceList(groupVersion: string, resources: seq<ApiResource>)

  datatype Resource = Resource(uri: string, name: string, description: string, mimeType: string)

  function GroupOf(groupVersion: string): string {
    if |Split(groupVersion)| == 1 then "" else Split(groupVersion)[0]
  }

  function VersionOf(groupVersion: string): string {
    if |Split(groupVersion)| == 1 then Split(groupVersion)[0] else Split(groupVersion)[1]
  }

  /** What the example URI of a resource stands for. */
  function Example(groupVersion: string, r: ApiResource): Components {
    Components(if r.namespaced then "default" else "",
               GroupOf(groupVersion), VersionOf(groupVersion), r.name, "example")
  }

  function Describe(groupVersion: string, r: ApiResource): Resource {
    var example := Example(groupVersion, r);
    Resource(if r.namespaced then PrintNamespaced(example) else PrintClustered(example),
             (if r.namespaced then "Namespaced " else "Clustered ") + r.kind,
             "Kubernetes " + r.kind + " resource",
             "application/json")
  }

  /** Where an advertised resource comes from. */
  datatype Source = Source(list: nat, item: nat)

  /** The first `m` resources of a list, without those that are subresources. */
  function ItemSources(resources: seq<ApiResource>, list: nat, m: nat): seq<Source>
    requires m <= |resources|
  {
    if m == 0 then []
    else if NoSlash(resources[m - 1].name) then ItemSources(resources, list, m - 1) + [Source(list, m - 1)]
    else ItemSources(resources, list, m - 1)
  }

  function Sources(lists: seq<ApiResourceList>, n: nat): seq<Source>
    requires n <= |lists|
  {
    if n == 0 then []
    else Sources(lists, n - 1) + ItemSources(lists[n - 1].resources, n - 1, |lists[n - 1].resources|)
  }

  predicate InRange(lists: seq<ApiResourceList>, s: Source) {
    s.list < |lists| && s.item < |lists[s.list].resources|
  }

  function DescribeSource(lists: seq<ApiResourceList>, s: Source): Resource
    requires InRange(lists, s)
  {
    Describe(lists[s.list].groupVersion, lists[s.list].resources[s.item])
  }

  /** The resources advertised are the descriptions of these sources, in this order. */
  ghost predicate Describes(lists: seq<ApiResourceList>, resources: seq<Resource>, sources: seq<Source>) {
    |resources| == |sources| &&
    forall i :: 0 <= i < |sources| ==> InRange(lists, sources[i]) && resources[i] == DescribeSource(lists, sources[i])
  }

  method HandleListAllResources(discovered: Result<seq<ApiResourceList>, string>)
    returns (r: Result<seq<Resource>, string>)
    ensures discovered.Err? ==> r == Err(discovered.error)
    ensures discovered.Ok? ==>
              r.Ok? && Describes(discovered.value, r.value, Sources(discovered.value, |discovered.value|))
  {
    if discovered.Err? {
      return Err(discovered.error);
    }
    var lists := discovered.value;
    var resources: seq<Resource> := [];
    for n := 0 to |lists|
      invariant Describes(lists, resources, Sources(lists, n))
    {
      var gv := Split(lists[n].groupVersion);
      var group, version;
      if |gv| == 1 {
        group, version := "", gv[0];
      } else {
        group, version := gv[0], gv[1];
      }
      var items := lists[n].resources;
      for m := 0 to |items|
        invariant Describes(lists, resources, Sources(lists, n) + ItemSources(items, n, m))
      {
        ghost var before := Sources(lists, n) + ItemSources(items, n, m);
        if !NoSlash(items[m].name) {
          continue;
        }
        assert Sources(lists, n) + ItemSources(items, n, m + 1) == before + [Source(n, m)];
        var kind := items[m].kind;
        var name := (if items[m].namespaced then "Namespaced " else "Clustered ") + kind;
        var uri;
        if items[m].namespaced {
          uri := "k8s://namespaced/default/" + group + "/" + version + "/" + items[m].name + "/example";
          NamespacedExample(group, version, items[m].name);
        } else {
          uri := "k8s://clustered/" + group + "/" + version + "/" + items[m].name + "/example";
          ClusteredExample(group, version, items[m].name);
        }
        var resource := Resource(uri, name, "Kubernetes " + kind + " resource", "application/json");
        assert resource == DescribeSource(lists, Source(n, m));
        resources := resources + [resource];
      }
    }
    return Ok(resources);
  }

  lemma NamespacedExample(group: string, version: string, name: string)
    ensures "k8s://namespaced/default/" + group + "/" + version + "/" + name + "/example"
         == PrintNamespaced(Components("default", group, version, name, "example"))
  {
    Join4(group, version, name, "example");
    assert ["default", group, version, name, "example"][1..] == [group, version, name, "example"];
    assert "/" + "example" == "/example" && "k8s://namespaced/" + "default" + "/" == "k8s://namespaced/default/";
  }

  lemma ClusteredExample(group: string, version: string, name: string)
    ensures "k8s://clustered/" + group + "/" + version + "/" + name + "/example"
         == PrintClustered(Components("", group, version, name, "example"))
  {
    Join4(group, version, name, "example");
    assert PrintClustered(Components("", group, version, name, "example"))
        == "k8s://clustered/" + (group + "/" + version + "/" + name + "/" + "example");
    assert "/" + "example" == "/example";
  }

  lemma Join4(a: string, b: string, c: string, d: string)
    ensures Join([a, b, c, d]) == a + "/" + b + "/" + c + "/" + d
  {
    assert [a, b, c, d][1..] == [b, c, d] && [b, c, d][1..] == [c, d] && [c, d][1..] == [d];
    assert Join([c, d]) == c + "/" + d;
    assert Join([b, c, d]) == b + "/" + (c + "/" + d) == b + "/" + c + "/" + d;
    assert Join([a, b, c, d]) == a + "/" + (b + "/" + c + "/" + d);
  }

  // ---------- Exactly once, in order ----------

  predicate Before(a: Source, b: Source) {
    a.list < b.list || (a.list == b.list && a.item < b.item)
  }

  ghost predicate Increasing(sources: seq<Source>) {
    forall i, j :: 0 <= i < j < |sources| ==> Before(sources[i], sources[j])
  }

  lemma {:induction false} ItemSourcesExact(resources: seq<ApiResource>, list: nat, m: nat)
    requires m <= |resources|
    ensures Increasing(ItemSources(resources, list, m))
    ensures forall s :: s in ItemSources(resources, list, m) <==>
              s.list == list && s.item < m && NoSlash(resources[s.item].name)
  {
    if m > 0 {
      ItemSourcesExact(resources, list, m - 1);
      var last := Source(list, m - 1);
      assert forall s: Source :: s.list == list && s.item < m ==> s.item < m - 1 || s == last;
      Joined(ItemSources(resources, list, m - 1), [last]);
    }
  }

  lemma Joined(front: seq<Source>, back: seq<Source>)
    requires Increasing(front) && Increasing(back)
    ensures (forall a, b :: a in front && b in back ==> Before(a, b)) ==> Increasing(front + back)
    ensures forall s :: s in front + back <==> s in front || s in back
  {
  }

  /** The source is one of the first `n` lists' and no subresource. */
  predicate Advertised(lists: seq<ApiResourceList>, n: nat, s: Source) {
    s.list < n && InRange(lists, s) && NoSlash(lists[s.list].resources[s.item].name)
  }

  /** The sources are exactly the discovered resources whose names have no slash, each once and in order. */
  lemma {:induction false} SourcesExact(lists: seq<ApiResourceList>, n: nat)
    requires n <= |lists|
    ensures Increasing(Sources(lists, n))
    ensures forall s :: s in Sources(lists, n) <==> Advertised(lists, n, s)
  {
    if n > 0 {
      var front, items := Sources(lists, n - 1), lists[n - 1].resources;
      var back := ItemSources(items, n - 1, |items|);
      SourcesExact(lists, n - 1);
      ItemSourcesExact(items, n - 1, |items|);
      Joined(front, back);
      forall s
        ensures Advertised(lists, n, s) <==> s in front || s in back
      {
        assert s in back <==> s.list == n - 1 && s.item < |items| && NoSlash(items[s.item].name);
      }
    }
  }

  // ---------- Advertised URIs can be read ----------

  /** A group version of the two usual forms is split into its group and version; what follows a second
      slash is dropped. */
  lemma GroupVersionSplit(group: string, version: string, rest: string)
    requires NoSlash(group) && NoSlash(version)
    ensures GroupOf(version) == "" && VersionOf(version) == version
    ensures GroupOf(group + "/" + version) == group && VersionOf(group + "/" + version) == version
    ensures GroupOf(group + "/" + version + "/" + rest) == group
    ensures VersionOf(group + "/" + version + "/" + rest) == version
  {
    SplitNoSlash(version);
    SplitNoSlash(group);
    SplitSlash(group, version);
    SplitSlash(group + "/" + version, rest);
  }

  /** Where the example of a resource is said to be, given its group, which may be empty, and version. */
  function Address(group: string, version: string, r: ApiResource): string {
    if r.namespaced then "k8s://namespaced/default/" + group + "/" + version + "/" + r.name + "/example"
    else "k8s://clustered/" + group + "/" + version + "/" + r.name + "/example"
  }

  /** What is said of a resource: its address, its scope and kind. */
  lemma DescribedAs(group: string, version: string, r: ApiResource)
    requires NoSlash(group) && NoSlash(version)
    ensures forall d :: d in [Describe(group + "/" + version, r), Describe(version, r)] ==>
              && d.name == (if r.namespaced then "Namespaced " else "Clustered ") + r.kind
              && d.description == "Kubernetes " + r.kind + " resource"
              && d.mimeType == "application/json"
    ensures Describe(group + "/" + version, r).uri == Address(group, version, r)
    ensures Describe(version, r).uri == Address("", version, r)
  {
    GroupVersionSplit(group, version, "");
    if r.namespaced {
      NamespacedExample(group, version, r.name);
      NamespacedExample("", version, r.name);
    } else {
      ClusteredExample(group, version, r.name);
      ClusteredExample("", version, r.name);
    }
  }

  /** The URI advertised for a resource of a group and version, or of the core group and a version, is read
      back as that group, version and resource by its own parser, and refused by the other, exactly if
      version and name are not empty. */
  lemma AdvertisedComponents(group: string, version: string, r: ApiResource)
    requires NoSlash(group) && NoSlash(version) && NoSlash(r.name)
    ensures var uri := Describe(group + "/" + version, r).uri;
            if r.namespaced then
              && ParseClustered(uri).Err?
              && (ParseNamespaced(uri) == Ok(Components("default", group, version, r.name, "example")) <==>
                  version != "" && r.name != "")
            else
              && ParseNamespaced(uri).Err?
              && (ParseClustered(uri) == Ok(Components("", group, version, r.name, "example")) <==>
                  version != "" && r.name != "")
    ensures var uri := Describe(version, r).uri;
            if r.namespaced then
              && ParseClustered(uri).Err?
              && (ParseNamespaced(uri) == Ok(Components("default", "", version, r.name, "example")) <==>
                  version != "" && r.name != "")
            else
              && ParseNamespaced(uri).Err?
              && (ParseClustered(uri) == Ok(Components("", "", version, r.name, "example")) <==>
                  version != "" && r.name != "")
  {
    GroupVersionSplit(group, version, "");
    AdvertisedRoundTrip(group + "/" + version, r);
    AdvertisedRoundTrip(version, r);
  }

  /** The URI advertised for a resource is read back as that resource by its own parser, and refused by the
      other, exactly if the version and the resource's name are not empty. */
  lemma AdvertisedRoundTrip(groupVersion: string, r: ApiResource)
    requires NoSlash(r.name)
    ensures var uri := Describe(groupVersion, r).uri;
            var own := if r.namespaced then ParseNamespaced(uri) else ParseClustered(uri);
            own == Ok(Example(groupVersion, r)) <==> VersionOf(groupVersion) != "" && r.name != ""
    ensures var uri := Describe(groupVersion, r).uri;
            var other := if r.namespaced then ParseClustered(uri) else ParseNamespaced(uri);
            other == Err(MissingPrefix)
  {
    var c, uri := Example(groupVersion, r), Describe(groupVersion, r).uri;
    SplitPartsNoSlash(groupVersion);
    if r.namespaced {
      NamespacedRoundTrip(c);
    } else {
      ClusteredRoundTrip(c);
    }
    OnePrefixAtMost(uri);
  }
}
