/** The JSON Patch operations the webhook emits (RFC 6902), the JSON Pointer
    that addresses a container's image (RFC 6901), and the effect of applying
    such a patch to the container list. */
module JsonPatch {
  import opened Results
  import opened Pods
  import opened Decimal

  /** An RFC 6902 "replace" operation (section 4.3) with a string value; the
      webhook emits no other kind. */
  datatype PatchOperation = Replace(path: string, value: string)

  const ContainersPrefix: string := "/spec/containers/"
  const ImageSuffix: string := "/image"

  /** The pointer to the `image` member of the container at position `i`; it
      addresses exactly position `i`. */
  function ImagePath(i: nat): (path: string)
    ensures PathIndex(path) == Some(i)
  {
    var digits := NatToString(i);
    var path := ContainersPrefix + digits + ImageSuffix;
    assert path[..|ContainersPrefix|] == ContainersPrefix;
    assert path[|path| - |ImageSuffix|..] == ImageSuffix;
    assert path[|ContainersPrefix|..|path| - |ImageSuffix|] == digits;
    ParseOfNatToString(i);
    path
  }

  /** The container position a pointer of the form `/spec/containers/<n>/image`
      addresses, `n` a canonical decimal; any other pointer addresses none. */
  function PathIndex(path: string): Option<nat> {
    if |path| >= |ContainersPrefix| + |ImageSuffix|
       && path[..|ContainersPrefix|] == ContainersPrefix
       && path[|path| - |ImageSuffix|..] == ImageSuffix
    then ParseNat(path[|ContainersPrefix|..|path| - |ImageSuffix|])
    else None
  }

  /** Every pointer that addresses a position is the one built for it. */
  lemma ImagePathOfPathIndex(path: string)
    requires PathIndex(path).Some?
    ensures path == ImagePath(PathIndex(path).value)
  {
    var digits := path[|ContainersPrefix|..|path| - |ImageSuffix|];
    NatToStringOfParse(digits);
    assert path == path[..|ContainersPrefix|] + digits + path[|path| - |ImageSuffix|..];
  }

  /** Distinct positions get distinct pointers. */
  lemma ImagePathInjective(i: nat, j: nat)
    ensures ImagePath(i) == ImagePath(j) ==> i == j
  {
    assert PathIndex(ImagePath(i)) == Some(i);
    assert PathIndex(ImagePath(j)) == Some(j);
  }

  /** Applies the operations in order to the container list. Following RFC 6902
      the replaced location must exist, so a pointer that addresses no container
      or a container without an `image` member makes the whole patch fail. */
  function Apply(cs: seq<Container>, ops: seq<PatchOperation>): (r: Option<seq<Container>>)
    ensures r.Some? ==> |r.value| == |cs|
    ensures r.Some? ==> forall i :: 0 <= i < |cs| ==>
      r.value[i].name == cs[i].name && (r.value[i].image.Some? <==> cs[i].image.Some?)
    ensures r.Some? ==> forall n :: 0 <= n < |ops| ==> PathIndex(ops[n].path).Some? && PathIndex(ops[n].path).value < |cs|
    decreases |ops|
  {
    if |ops| == 0 then Some(cs)
    else
      match PathIndex(ops[0].path)
      case None => None
      case Some(i) =>
        if i < |cs| && cs[i].image.Some?
        then Apply(cs[i := cs[i].(image := Some(ops[0].value))], ops[1..])
        else None
  }
}
