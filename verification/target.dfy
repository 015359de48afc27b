/** The target platform of a Pod, read from its `aargh64` annotation. */
module TargetPlatform {
  import opened Results
  import opened Pods

  /** The requested `(os, architecture)` pair. */
  datatype Target = Target(os: string, architecture: string)

  /** Rust's `str::split_once`: the text before the first `sep` and everything
      after it, or nothing when `sep` does not occur. */
  function SplitOnce(s: string, sep: char): (r: Option<(string, string)>)
    ensures r.None? <==> sep !in s
    ensures r.Some? ==> s == r.value.0 + [sep] + r.value.1 && sep !in r.value.0
  {
    if |s| == 0 then None
    else if s[0] == sep then Some(([], s[1..]))
    else
      match SplitOnce(s[1..], sep)
      case None => None
      case Some((before, after)) =>
        assert s == [s[0]] + s[1..];
        Some(([s[0]] + before, after))
  }

  /** Splitting a joined pair at a separator the first part lacks gives the pair back. */
  lemma {:induction false} SplitOnceOfJoin(before: string, after: string, sep: char)
    requires sep !in before
    ensures SplitOnce(before + [sep] + after, sep) == Some((before, after))
    decreases |before|
  {
    var s := before + [sep] + after;
    if |before| == 0 {
      assert s[1..] == after;
    } else {
      assert s[1..] == before[1..] + [sep] + after;
      SplitOnceOfJoin(before[1..], after, sep);
      assert [s[0]] + before[1..] == before;
    }
  }

  /** The target a Pod asks for: present exactly when the annotation exists and
      contains a `/`; the os is the text before the first `/`, the architecture
      everything after it. */
  function PodTarget(pod: Pod): (r: Option<Target>)
    ensures r.Some? <==>
      pod.annotations.Some? && AnnotationKey in pod.annotations.value
      && '/' in pod.annotations.value[AnnotationKey]
    ensures r.Some? ==>
      pod.annotations.Some? && AnnotationKey in pod.annotations.value
      && pod.annotations.value[AnnotationKey] == r.value.os + "/" + r.value.architecture
      && '/' !in r.value.os
  {
    if pod.annotations.None? || AnnotationKey !in pod.annotations.value then None
    else
      match SplitOnce(pod.annotations.value[AnnotationKey], '/')
      case None => None
      case Some((os, architecture)) => Some(Target(os, architecture))
  }

  /** Any `<os>/<architecture>` annotation whose os has no `/` is read back as exactly that pair. */
  lemma AnnotationRoundTrip(pod: Pod, t: Target)
    requires pod.annotations.Some? && AnnotationKey in pod.annotations.value
    requires pod.annotations.value[AnnotationKey] == t.os + "/" + t.architecture
    requires '/' !in t.os
    ensures PodTarget(pod) == Some(t)
  {
    SplitOnceOfJoin(t.os, t.architecture, '/');
  }

  /** A variant suffix stays in the architecture: `linux/arm/v7` asks for architecture `arm/v7`. */
  lemma VariantStaysInArchitecture()
    ensures SplitOnce("linux/arm/v7", '/') == Some(("linux", "arm/v7"))
  {
    SplitOnceOfJoin("linux", "arm/v7", '/');
    assert "linux" + ['/'] + "arm/v7" == "linux/arm/v7";
  }
}
