/** The gauge of a watched resource: internal/utils/prometheus.go and the series it feeds. */
module Metrics {
  import opened Wrappers
  import opened Strings
  import opened Json
  import opened Config

  type Labels = map<string, string>

  /** The value of each label series. */
  type Gauge = map<Labels, int>

  /** A label is a fixed value, or with a leading "$" the string at a path of the object. */
  function ResolveLabel(value: string, obj: Fields): Option<string> {
    if value != "" && value[0] == '$' then
      match NestedString(obj, Split(value[1..], '.'))
      case Found(Str(s)) => Some(s)
      case _ => None
    else Some(value)
  }

  /** Which label a configured value gives: the string at a "$" path or nothing, and itself otherwise. */
  lemma ResolvedLabel(path: seq<string>, value: string, obj: Fields)
    requires path != [] && forall part :: part in path ==> '.' !in part
    ensures ResolveLabel("$" + Join(path, '.'), obj) ==
            match NestedString(obj, path) case Found(Str(s)) => Some(s) case _ => None
    ensures value == "" || value[0] != '$' ==> ResolveLabel(value, obj) == Some(value)
  {
    assert ("$" + Join(path, '.'))[1..] == Join(path, '.');
    SplitJoin(path, '.');
  }

  /** A label at "$spec.environment" is the environment of the object. */
  lemma EnvironmentLabel(obj: Fields, environment: string)
    requires "spec" in obj && obj["spec"].Map? && "environment" in obj["spec"].fields
    requires obj["spec"].fields["environment"] == Str(environment)
    ensures ResolveLabel("$spec.environment", obj) == Some(environment)
  {
    EnvironmentPath();
    ResolvedLabel(ENVIRONMENT_PATH, "", obj);
    TwoSteps(Map(obj), "spec", "environment");
    assert ["spec"][1..] == [] && ["environment"][1..] == [];
  }

  lemma EnvironmentPath()
    ensures "$" + Join(ENVIRONMENT_PATH, '.') == "$spec.environment"
    ensures forall part :: part in ENVIRONMENT_PATH ==> '.' !in part
  {
    assert ENVIRONMENT_PATH[1..] == ["environment"];
    assert Join(["environment"], '.') == "environment";
    assert "spec" + "." + "environment" == "spec.environment";
  }

  /** The labels of an object; those that cannot be resolved are left out. */
  function LabelsOf(resource: Resource, obj: Fields): Labels {
    map name | name in resource.labels && ResolveLabel(resource.labels[name], obj).Some? ::
      ResolveLabel(resource.labels[name], obj).value
  }

  method GetLabelsForResource(obj: Fields, resource: Resource) returns (labels: Labels)
    ensures labels == LabelsOf(resource, obj)
  {
    labels := map[];
    var left := resource.labels.Keys;
    while left != {}
      invariant left <= resource.labels.Keys
      invariant labels == map name | name in LabelsOf(resource, obj) && name !in left :: LabelsOf(resource, obj)[name]
      decreases left
    {
      var name :| name in left;
      left := left - {name};
      var value := ResolveLabel(resource.labels[name], obj);
      if value.None? {
        continue;
      }
      labels := labels[name := value.value];
    }
  }

  function Get(gauge: Gauge, labels: Labels): int {
    if labels in gauge then gauge[labels] else 0
  }

  function Add(gauge: Gauge, labels: Labels, delta: int): Gauge {
    gauge[labels := Get(gauge, labels) + delta]
  }

  /** The sum over all series. */
  ghost function Sum(gauge: Gauge): int {
    if gauge == map[] then 0
    else
      var labels :| labels in gauge;
      gauge[labels] + Sum(gauge - {labels})
  }

  lemma {:induction false} SumWithout(gauge: Gauge, labels: Labels)
    requires labels in gauge
    ensures Sum(gauge) == gauge[labels] + Sum(gauge - {labels})
    decreases |gauge|
  {
    var first :| first in gauge && Sum(gauge) == gauge[first] + Sum(gauge - {first});
    if first != labels {
      SumWithout(gauge - {first}, labels);
      SumWithout(gauge - {labels}, first);
      assert gauge - {first} - {labels} == gauge - {labels} - {first};
    }
  }

  /** Changing one series by `delta` changes the sum by `delta`. */
  lemma SumAfterAdd(gauge: Gauge, labels: Labels, delta: int)
    ensures Sum(Add(gauge, labels, delta)) == Sum(gauge) + delta
  {
    var after := Add(gauge, labels, delta);
    SumWithout(after, labels);
    assert after - {labels} == gauge - {labels};
    if labels in gauge {
      SumWithout(gauge, labels);
    } else {
      assert gauge - {labels} == gauge;
    }
  }
}
