/**
 Configured resources and how they name datasets: internal/config/resource.go,
 internal/config/config.go and the naming helpers of internal/utils.
 */
module Config {
  import opened Wrappers
  import opened Strings
  import opened Json

  datatype Resource = Resource(
    group: string,
    version: string,
    resource: string,
    kind: string,
    mongoId: string,
    labels: map<string, string>)

  datatype GroupVersionKind = GroupVersionKind(group: string, version: string, kind: string)

  datatype GroupVersionResource = GroupVersionResource(group: string, version: string, resource: string)

  // ----- apiVersion strings --------------------------------------------------

  function GroupVersionString(group: string, version: string): string {
    if group != "" then group + "/" + version else version
  }

  function ParseGroupVersion(apiVersion: string): Option<(string, string)> {
    if apiVersion == "" || apiVersion == "/" then Some(("", ""))
    else
      var parts := Split(apiVersion, '/');
      if |parts| == 1 then Some(("", apiVersion))
      else if |parts| == 2 then Some((parts[0], parts[1]))
      else None
  }

  function GvkOf(obj: Fields): GroupVersionKind {
    match ParseGroupVersion(ApiVersion(obj))
    case Some((group, version)) => GroupVersionKind(group, version, Kind(obj))
    case None => GroupVersionKind("", "", "")
  }

  // ----- Dataset names -------------------------------------------------------

  function DottedName(plural: string, group: string, version: string): string {
    Lower(plural + "." + group + "." + version)
  }

  /** The dataset that reads, listings and reconciliation passes use. */
  function GroupVersionName(r: Resource): string {
    DottedName(r.resource, r.group, r.version)
  }

  /** The dataset that writes use: the kind with an "s" stands in for the plural. */
  function GroupVersionId(obj: Fields): string {
    var gvk := GvkOf(obj);
    DottedName(gvk.kind + "s", gvk.group, gvk.version)
  }

  // ----- Lookups -------------------------------------------------------------

  /** The first configured resource that satisfies `matches`. */
  function First(resources: seq<Resource>, matches: Resource -> bool): Option<Resource> {
    if resources == [] then None
    else if matches(resources[0]) then Some(resources[0])
    else First(resources[1..], matches)
  }

  function ResourceConfiguration(resources: seq<Resource>, obj: Fields): Option<Resource> {
    var gvk := GvkOf(obj);
    First(resources, (r: Resource) => GroupVersionKind(r.group, r.version, r.kind) == gvk)
  }

  function ResourceForGvr(resources: seq<Resource>, gvr: GroupVersionResource): Option<Resource> {
    First(resources, (r: Resource) => GroupVersionResource(r.group, r.version, r.resource) == gvr)
  }

  function FieldPath(field: string): seq<string> {
    Split(TrimPrefix(field, '.'), '.')
  }

  /** The document id of an object: the configured string field, else the uid. */
  function MongoId(resources: seq<Resource>, obj: Fields): Option<string> {
    match ResourceConfiguration(resources, obj)
    case Some(r) =>
      if r.mongoId == "" then Some(Uid(obj))
      else (match NestedString(obj, FieldPath(r.mongoId))
            case Found(Str(id)) => Some(id)
            case _ => None)
    case None => Some(Uid(obj))
  }

  // ----- Properties ----------------------------------------------------------

  lemma {:induction false} FirstIsFirst(resources: seq<Resource>, matches: Resource -> bool)
    ensures match First(resources, matches)
            case None => forall r :: r in resources ==> !matches(r)
            case Some(r) => exists i :: 0 <= i < |resources| && resources[i] == r && matches(r)
                                        && forall j :: 0 <= j < i ==> !matches(resources[j])
  {
    if resources != [] && !matches(resources[0]) {
      var rest := resources[1..];
      FirstIsFirst(rest, matches);
      match First(rest, matches)
      case None =>
      case Some(r) =>
        var i :| 0 <= i < |rest| && rest[i] == r && forall j :: 0 <= j < i ==> !matches(rest[j]);
        assert resources[i + 1] == r;
        assert forall j :: 0 < j < i + 1 ==> resources[j] == rest[j - 1];
    }
  }

  lemma ParseOfString(group: string, version: string)
    requires '/' !in group && '/' !in version
    ensures ParseGroupVersion(GroupVersionString(group, version)) == Some((group, version))
  {
    if group == "" {
      SplitNone(version, '/');
    } else {
      assert (group + "/" + version)[0] != '/';
      SplitFirst(group, '/', version);
      SplitNone(version, '/');
    }
  }

  lemma LowerOfDotted(plural: string, group: string, version: string)
    ensures DottedName(plural, group, version) == Lower(plural) + "." + (Lower(group) + "." + Lower(version))
  {
  }

  /** The dot between `p` and `g` is not the one between `q` and `h`: `q` reaches beyond it. */
  ghost predicate Overlaps(p: string, g: string, q: string, h: string) {
    exists w :: q == p + "." + w && g == w + "." + h
  }

  /** Two pairs that read the same when joined by a dot. */
  ghost predicate SameDotted(p: string, g: string, q: string, h: string) {
    (p == q && g == h) || Overlaps(p, g, q, h) || Overlaps(q, h, p, g)
  }

  lemma LongerReachesBeyond(p: string, g: string, q: string, h: string)
    requires p + "." + g == q + "." + h && |p| < |q|
    ensures Overlaps(p, g, q, h)
  {
    var w := q[|p| + 1..];
    assert q == (q + "." + h)[..|q|] == (p + "." + g)[..|q|];
    assert q[..|p|] == p && q[|p|] == '.';
    assert q == p + "." + w;
    assert g == (p + "." + g)[|p| + 1..] == (q + "." + h)[|p| + 1..] == w + "." + h;
  }

  lemma OverlapsJoin(p: string, g: string, q: string, h: string)
    requires Overlaps(p, g, q, h)
    ensures p + "." + g == q + "." + h
  {
    var w :| q == p + "." + w && g == w + "." + h;
    assert p + "." + (w + "." + h) == (p + "." + w) + "." + h;
  }

  /** Exactly when two dotted strings are the same. */
  lemma SameDottedIff(p: string, g: string, q: string, h: string)
    ensures p + "." + g == q + "." + h <==> SameDotted(p, g, q, h)
  {
    if p + "." + g == q + "." + h {
      if |p| < |q| {
        LongerReachesBeyond(p, g, q, h);
      } else if |q| < |p| {
        LongerReachesBeyond(q, h, p, g);
      } else {
        assert p == (p + "." + g)[..|p|] && q == (q + "." + h)[..|p|];
        assert g == (p + "." + g)[|p| + 1..] && h == (q + "." + h)[|p| + 1..];
      }
    }
    if Overlaps(p, g, q, h) {
      OverlapsJoin(p, g, q, h);
    }
    if Overlaps(q, h, p, g) {
      OverlapsJoin(q, h, p, g);
    }
  }

  lemma JoinLeft(p: string, g: string, v: string)
    ensures p + "." + (g + "." + v) == p + "." + g + "." + v
  {
  }

  /**
   Exactly when two configured resources share a dataset, up to case: their versions agree and plural and
   group read the same when joined, or a dot of a version takes part in the confusion.
   */
  lemma SameDatasetIff(r: Resource, q: Resource)
    ensures var p, g, v := Lower(r.resource), Lower(r.group), Lower(r.version);
            var p', g', v' := Lower(q.resource), Lower(q.group), Lower(q.version);
            GroupVersionName(r) == GroupVersionName(q) <==>
            || (v == v' && SameDotted(p, g, p', g'))
            || Overlaps(p + "." + g, v, p' + "." + g', v')
            || Overlaps(p' + "." + g', v', p + "." + g, v)
  {
    LowerOfDotted(r.resource, r.group, r.version);
    LowerOfDotted(q.resource, q.group, q.version);
    JoinLeft(Lower(r.resource), Lower(r.group), Lower(r.version));
    JoinLeft(Lower(q.resource), Lower(q.group), Lower(q.version));
    SameDottedIff(Lower(r.resource), Lower(r.group), Lower(q.resource), Lower(q.group));
    SameDottedIff(Lower(r.resource) + "." + Lower(r.group), Lower(r.version),
                  Lower(q.resource) + "." + Lower(q.group), Lower(q.version));
  }

  lemma OverlapHasDots(p: string, g: string, q: string, h: string)
    requires Overlaps(p, g, q, h)
    ensures '.' in q && '.' in g
  {
    var w :| q == p + "." + w && g == w + "." + h;
    assert q[|p|] == '.' && g[|w|] == '.';
  }

  lemma DotFreeNeverOverlaps(p: string, g: string, q: string, h: string)
    requires '.' !in q || '.' !in g
    ensures !Overlaps(p, g, q, h)
  {
    if Overlaps(p, g, q, h) {
      OverlapHasDots(p, g, q, h);
    }
  }

  /**
   Dataset names are injective up to case: with a dot-free plural and version, and any
   group (dotted or empty), two resources share a dataset only when all three parts agree.
   */
  lemma DatasetNamesInjective(r: Resource, q: Resource)
    requires '.' !in r.resource && '.' !in r.version
    requires '.' !in q.resource && '.' !in q.version
    ensures GroupVersionName(r) == GroupVersionName(q) <==>
            Lower(r.resource) == Lower(q.resource) && Lower(r.group) == Lower(q.group) &&
              Lower(r.version) == Lower(q.version)
  {
    var p, g, v := Lower(r.resource), Lower(r.group), Lower(r.version);
    var p', g', v' := Lower(q.resource), Lower(q.group), Lower(q.version);
    LowerKeepsDot(r.resource);
    LowerKeepsDot(q.resource);
    LowerKeepsDot(r.version);
    LowerKeepsDot(q.version);
    SameDatasetIff(r, q);
    DotFreeNeverOverlaps(p, g, p', g');
    DotFreeNeverOverlaps(p', g', p, g);
    DotFreeNeverOverlaps(p + "." + g, v, p' + "." + g', v');
    DotFreeNeverOverlaps(p' + "." + g', v', p + "." + g, v);
  }

  /**
   The names of datasets, character by character: plural (or kind and "s"), group and version joined by
   dots, upper-case letters lowered, everything else as it is.
   */
  lemma DatasetNamesAreLowered(r: Resource, obj: Fields)
    ensures var joined := r.resource + "." + r.group + "." + r.version;
            Lowers(GroupVersionName(r), joined)
    ensures var gvk := GvkOf(obj);
            Lowers(GroupVersionId(obj), gvk.kind + "s." + gvk.group + "." + gvk.version)
  {
    var gvk := GvkOf(obj);
    assert gvk.kind + "s" + "." + gvk.group + "." + gvk.version == gvk.kind + "s." + gvk.group + "." + gvk.version;
    LowerIs(r.resource + "." + r.group + "." + r.version);
    LowerIs(gvk.kind + "s" + "." + gvk.group + "." + gvk.version);
  }

  /** `lowered` is `s` with its upper-case letters lowered. */
  predicate Lowers(lowered: string, s: string) {
    && |lowered| == |s| && (forall c :: c in lowered ==> !('A' <= c <= 'Z'))
    && forall i :: 0 <= i < |s| ==>
         if 'A' <= s[i] <= 'Z' then lowered[i] as int == s[i] as int - 'A' as int + 'a' as int else lowered[i] == s[i]
  }

  /** Reading and writing meet for every resource whose plural is its kind in lower case with an "s". */
  lemma RegularPluralsMeet(r: Resource, obj: Fields)
    requires GvkOf(obj) == GroupVersionKind(r.group, r.version, r.kind) && r.resource == Lower(r.kind) + "s"
    ensures GroupVersionId(obj) == GroupVersionName(r)
  {
    LowerConcat(Lower(r.kind), "s");
    LowerIdempotent(r.kind);
    assert Lower("s") == "s";
    WrittenDatasetIsReadDataset(r, obj);
  }

  /** For example a Subscription, configured as "subscriptions". */
  lemma SubscriptionsMeet(r: Resource, obj: Fields)
    requires r.resource == "subscriptions" && r.kind == "Subscription"
    requires GvkOf(obj) == GroupVersionKind(r.group, r.version, r.kind)
    ensures GroupVersionId(obj) == GroupVersionName(r)
  {
    assert Lower("Subscription") == "subscription";
    RegularPluralsMeet(r, obj);
  }

  /** An apiVersion is a version alone, or a group and a version; nothing in it means both are empty. */
  lemma ApiVersionParts(group: string, version: string)
    requires '/' !in group && '/' !in version
    ensures version != "" ==> ParseGroupVersion(version) == Some(("", version))
    ensures group != "" || version != "" ==> ParseGroupVersion(group + "/" + version) == Some((group, version))
    ensures ParseGroupVersion("") == ParseGroupVersion("/") == Some(("", ""))
  {
    SplitNone(version, '/');
    SplitFirst(group, '/', version);
    if group != "" || version != "" {
      assert |group + "/" + version| > 1;
    }
    if version != "" {
      assert version[0] != '/';
    }
  }

  /** With two slashes it is no apiVersion. */
  lemma TwoSlashesAreNone(group: string, version: string, more: string)
    requires '/' !in group && '/' !in version
    ensures ParseGroupVersion(group + "/" + (version + "/" + more)) == None
  {
    SplitFirst(group, '/', version + "/" + more);
    SplitFirst(version, '/', more);
    assert |group + "/" + (version + "/" + more)| > 1;
    SplitSome(more, '/');
  }

  /** Group, version and kind of an object; an apiVersion that is no such thing leaves all three empty. */
  lemma GvkIs(obj: Fields)
    ensures match ParseGroupVersion(ApiVersion(obj))
            case Some((group, version)) =>
              GvkOf(obj).group == group && GvkOf(obj).version == version && GvkOf(obj).kind == Kind(obj)
            case None => GvkOf(obj).group == "" && GvkOf(obj).version == "" && GvkOf(obj).kind == ""
  {
  }

  /** The configuration of an object is the first with its group, version and kind. */
  predicate IsConfiguration(r: Resource, obj: Fields) {
    r.group == GvkOf(obj).group && r.version == GvkOf(obj).version && r.kind == GvkOf(obj).kind
  }

  /**
   The document id, for all objects: the uid of an object that is not configured, or whose resource names
   no field; else the string at the configured path, and no id without one.
   */
  lemma MongoIdIs(resources: seq<Resource>, obj: Fields, r: Resource, i: nat)
    requires i < |resources| && resources[i] == r && IsConfiguration(r, obj)
    requires forall j :: 0 <= j < i ==> !IsConfiguration(resources[j], obj)
    ensures r.mongoId == "" ==> MongoId(resources, obj) == Some(StringAt(Metadata(obj), "uid"))
    ensures r.mongoId != "" ==>
              MongoId(resources, obj) ==
              match NestedString(obj, FieldPath(r.mongoId)) case Found(Str(id)) => Some(id) case _ => None
  {
    var gvk := GvkOf(obj);
    AccessorsRead(obj);
    FirstAt(resources, (r: Resource) => GroupVersionKind(r.group, r.version, r.kind) == gvk, i);
  }

  lemma MongoIdOfUnknown(resources: seq<Resource>, obj: Fields)
    requires forall r :: r in resources ==> !IsConfiguration(r, obj)
    ensures MongoId(resources, obj) == Some(StringAt(Metadata(obj), "uid"))
  {
    var gvk := GvkOf(obj);
    AccessorsRead(obj);
    assert forall i :: 0 <= i < |resources| ==> !IsConfiguration(resources[i], obj);
    FirstOfNone(resources, (r: Resource) => GroupVersionKind(r.group, r.version, r.kind) == gvk);
  }

  lemma {:induction false} FirstAtMost(resources: seq<Resource>, matches: Resource -> bool, i: nat)
    requires i < |resources| && matches(resources[i])
    ensures First(resources, matches).Some?
  {
    if i > 0 {
      FirstAtMost(resources[1..], matches, i - 1);
    }
  }

  lemma {:induction false} FirstOfNone(resources: seq<Resource>, matches: Resource -> bool)
    requires forall i :: 0 <= i < |resources| ==> !matches(resources[i])
    ensures First(resources, matches) == None
  {
    if resources != [] {
      FirstOfNone(resources[1..], matches);
    }
  }

  lemma {:induction false} FirstAt(resources: seq<Resource>, matches: Resource -> bool, i: nat)
    requires i < |resources| && matches(resources[i]) && forall j :: 0 <= j < i ==> !matches(resources[j])
    ensures First(resources, matches) == Some(resources[i])
  {
    if i > 0 {
      FirstAt(resources[1..], matches, i - 1);
    }
  }

  /** A configured field names its path by dots, with or without a leading one. */
  lemma FieldPathIs(path: seq<string>)
    requires path != [] && forall part :: part in path ==> '.' !in part
    ensures FieldPath("." + Join(path, '.')) == path
    ensures path[0] != "" ==> FieldPath(Join(path, '.')) == path
  {
    TrimPrefixIs(Join(path, '.'), '.');
    SplitJoin(path, '.');
    if path[0] != "" {
      assert path[0][0] in path[0];
      assert Join(path, '.')[0] == path[0][0];
    }
  }

  /** Without the dot-free plural two different resources can share one dataset. */
  lemma DottedPluralCollides()
    ensures var r := Resource("c", "v1", "a.b", "", "", map[]);
            var q := Resource("b.c", "v1", "a", "", "", map[]);
            GroupVersionName(r) == GroupVersionName(q) && Lower(r.resource) != Lower(q.resource)
  {
  }

  /**
   For an object of the configured group and version, the dataset it is written to is the
   dataset that is listed and counted exactly when the plural is the kind with an "s".
   */
  lemma WrittenDatasetIsReadDataset(r: Resource, obj: Fields)
    requires GvkOf(obj).group == r.group && GvkOf(obj).version == r.version
    ensures GroupVersionId(obj) == GroupVersionName(r) <==> Lower(r.resource) == Lower(GvkOf(obj).kind) + "s"
  {
    var gvk := GvkOf(obj);
    var rest := "." + (Lower(r.group) + "." + Lower(r.version));
    LowerOfDotted(r.resource, r.group, r.version);
    LowerOfDotted(gvk.kind + "s", r.group, r.version);
    LowerConcat(gvk.kind, "s");
    assert Lower("s") == "s";
    SameRest(Lower(r.resource), Lower(gvk.kind) + "s", rest);
    Regroup(Lower(r.resource), ".", Lower(r.group) + "." + Lower(r.version));
    Regroup(Lower(gvk.kind) + "s", ".", Lower(r.group) + "." + Lower(r.version));
  }

  lemma SameRest(a: string, b: string, rest: string)
    ensures a + rest == b + rest <==> a == b
  {
    if a + rest == b + rest {
      assert |a| == |b|;
      assert (a + rest)[..|a|] == a && (b + rest)[..|a|] == b;
    }
  }

  /** Environment defaulting changes neither the dataset nor the kind of an object. */
  lemma EnvironmentKeepsDataset(obj: Fields)
    ensures GvkOf(WithEnvironment(obj)) == GvkOf(obj)
    ensures GroupVersionId(WithEnvironment(obj)) == GroupVersionId(obj)
  {
    EnvironmentKeepsIdentity(obj);
  }
}
