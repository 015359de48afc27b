/** The part of a Kubernetes Pod the webhook looks at: its annotations and
    the ordered list of containers in its spec. */
module Pods {
  import opened Results

  /** The annotation whose value names the target platform as `<os>/<architecture>`. */
  const AnnotationKey: string := "aargh64"

  /** A container of the Pod spec; `image` is optional in the Kubernetes API. */
  datatype Container = Container(name: string, image: Option<string>)

  datatype PodSpec = PodSpec(containers: seq<Container>)

  /** A Pod: `metadata.annotations` and `spec` may both be absent. */
  datatype Pod = Pod(annotations: Option<map<string, string>>, spec: Option<PodSpec>)
}
