/** The API objects the control plane exchanges (internal/api/types.go).
    Optional JSON fields are `Option`; a nil and an empty label map are the same map. */
module Api {

  datatype Option<+T> = None | Some(value: T)

  type Labels = map<string, string>

  datatype ObjectMeta = ObjectMeta(name: string, namespace: string, labels: Labels, annotations: Labels)

  datatype Container = Container(name: string, image: string, hasLivenessProbe: bool)

  datatype PodSpec = PodSpec(containers: seq<Container>, nodeName: string)

  datatype PodStatus = PodStatus(phase: string, podIP: string)

  datatype Pod = Pod(meta: ObjectMeta, spec: PodSpec, status: PodStatus)

  datatype PodTemplate = PodTemplate(meta: ObjectMeta, spec: PodSpec)

  datatype ReplicaSet = ReplicaSet(meta: ObjectMeta, replicas: Option<int>, selector: Labels, template: PodTemplate)

  datatype Deployment = Deployment(meta: ObjectMeta, replicas: Option<int>, selector: Labels, template: PodTemplate)

  const UNSCHEDULED: PodStatus := PodStatus("", "")

  /** Go's `m[k]` on a string map: a missing key reads as the empty string. */
  function Lookup(labels: Labels, key: string): string {
    if key in labels then labels[key] else ""
  }

  function Max(a: int, b: int): int {
    if a < b then b else a
  }

  /** The prefix test of strings.HasPrefix. */
  predicate HasPrefix(s: string, prefix: string) {
    |prefix| <= |s| && s[..|prefix|] == prefix
  }
}
