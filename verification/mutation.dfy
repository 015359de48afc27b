/** The decision logic of the webhook's `mutate`: read the target platform,
    walk the Pod's containers in order, resolve each image to the digest of
    the index entry built for the target, and emit one "replace" per resolved
    container, or fail the whole Pod on the first error. */
module Mutation {
  import opened Results
  import opened Pods
  import opened Decimal
  import opened TargetPlatform
  import opened Matcher
  import opened JsonPatch

  /** A parsed image reference; only registry and repository reach the patch. */
  datatype Reference = Reference(registry: string, repository: string, tag: Option<string>, digest: Option<string>)

  /** The two collaborators the webhook calls out to: the image-reference parser
      and the anonymous manifest pull. Each fails with a message. */
  datatype Registry = Registry(
    parse: string -> Result<Reference, string>,
    fetch: Reference -> Result<Manifest, string>)

  /** Why a mutation gives up. `MissingPlatform` is the panic of the index
      search on an entry without platform metadata. */
  datatype MutationError =
    | InvalidReference(message: string)
    | RegistryFailure(message: string)
    | NotAnImageIndex
    | MissingPlatform

  /** The text an error carries: the parser's and the registry's own text
      verbatim, and the two fixed texts of the webhook's own failures (the
      denial reason of a single-platform manifest, the panic message of an
      entry without platform). */
  function Message(e: MutationError): string
  {
    match e
    case InvalidReference(m) => m
    case RegistryFailure(m) => m
    case NotAnImageIndex => "Not an image index"
    case MissingPlatform => "No platform"
  }

  /** The outcome for one container, with the references whose manifests were pulled. */
  datatype Step = Step(outcome: Result<Option<PatchOperation>, MutationError>, fetched: seq<Reference>)

  /** The outcome for a run of containers, with every manifest pull in call order. */
  datatype Run = Run(outcome: Result<seq<PatchOperation>, MutationError>, fetched: seq<Reference>)

  /** The image string pinned to a digest; any tag or digest of the original reference is dropped. */
  function PinnedImage(r: Reference, digest: string): string {
    r.registry + "/" + r.repository + "@" + digest
  }

  /** The pin reads back: when registry and repository contain no `@`,
      splitting the pin at its first `@` gives back the name and the digest,
      and when the registry also contains no `/`, splitting the name at its
      first `/` gives back registry and repository. */
  lemma PinnedImageSplitsBack(r: Reference, digest: string)
    ensures '@' !in r.registry && '@' !in r.repository ==>
      SplitOnce(PinnedImage(r, digest), '@') == Some((r.registry + "/" + r.repository, digest))
    ensures '/' !in r.registry ==>
      SplitOnce(r.registry + "/" + r.repository, '/') == Some((r.registry, r.repository))
  {
    var name := r.registry + "/" + r.repository;
    if '@' !in r.registry && '@' !in r.repository {
      assert '@' !in name by {
        assert forall k :: 0 <= k < |name| ==> name[k] in r.registry || name[k] == '/' || name[k] in r.repository;
      }
      SplitOnceOfJoin(name, digest, '@');
      assert name + ['@'] + digest == PinnedImage(r, digest);
    }
    if '/' !in r.registry {
      SplitOnceOfJoin(r.registry, r.repository, '/');
      assert r.registry + ['/'] + r.repository == name;
    }
  }

  /** Resolves the container at position `i`. A container without an image
      contributes nothing and pulls nothing; otherwise at most one manifest is
      pulled, and a patch, if any, replaces the image of container `i`. */
  function ResolveContainer(c: Container, i: nat, t: Target, reg: Registry): (s: Step)
    ensures |s.fetched| <= 1
    ensures c.image.None? ==> s == Step(Ok(None), [])
    ensures s.outcome.Ok? && s.outcome.value.Some? ==> c.image.Some? && s.outcome.value.value.path == ImagePath(i)
  {
    match c.image
    case None => Step(Ok(None), [])
    case Some(image) =>
      match reg.parse(image)
      case Err(m) => Step(Err(InvalidReference(m)), [])
      case Ok(ref) =>
        match reg.fetch(ref)
        case Err(m) => Step(Err(RegistryFailure(m)), [ref])
        case Ok(Image) => Step(Err(NotAnImageIndex), [ref])
        case Ok(ImageIndex(ds)) =>
          match FindMatch(ds, t)
          case NoPlatform(_) => Step(Err(MissingPlatform), [ref])
          case NoMatch => Step(Ok(None), [ref])
          case Found(k) => Step(Ok(Some(Replace(ImagePath(i), PinnedImage(ref, ds[k].digest)))), [ref])
  }

  /** Each outcome of a container with an image and its cause, in both
      directions. The image is parsed first and a parse failure pulls nothing;
      otherwise the parsed reference is pulled exactly once. A failed pull is a
      registry failure carrying its message; a single-platform manifest is
      `NotAnImageIndex`; in an index, an entry without platform met before a
      match is `MissingPlatform`, no matching entry gives no patch, and the first
      matching entry gives the patch that pins the parsed registry and
      repository to its digest. */
  lemma ContainerOutcomeCauses(c: Container, i: nat, t: Target, reg: Registry)
    requires c.image.Some?
    ensures var s := ResolveContainer(c, i, t, reg);
      var p := reg.parse(c.image.value);
      && (p.Err? ==> s == Step(Err(InvalidReference(p.error)), []))
      && (p.Ok? ==> s.fetched == [p.value])
      && (s.outcome.Ok? && s.outcome.value.Some? ==>
            p.Ok? && var ref := p.value;
            reg.fetch(ref).Ok? && reg.fetch(ref).value.ImageIndex?
            && var ds := reg.fetch(ref).value.manifests;
            FindMatch(ds, t).Found?
            && s.outcome.value.value == Replace(ImagePath(i), PinnedImage(ref, ds[FindMatch(ds, t).index].digest)))
      && (s.outcome == Ok(None) ==>
            p.Ok? && var ref := p.value;
            reg.fetch(ref).Ok? && reg.fetch(ref).value.ImageIndex?
            && FindMatch(reg.fetch(ref).value.manifests, t) == NoMatch)
      && (s.outcome == Err(NotAnImageIndex) ==>
            p.Ok? && var ref := p.value;
            reg.fetch(ref) == Ok(Image))
      && (s.outcome == Err(MissingPlatform) ==>
            p.Ok? && var ref := p.value;
            reg.fetch(ref).Ok? && reg.fetch(ref).value.ImageIndex?
            && FindMatch(reg.fetch(ref).value.manifests, t).NoPlatform?)
      && (p.Ok? ==>
            var ref := p.value;
            && (reg.fetch(ref).Err? ==> s.outcome == Err(RegistryFailure(reg.fetch(ref).error)))
            && (reg.fetch(ref) == Ok(Image) ==> s.outcome == Err(NotAnImageIndex))
            && (reg.fetch(ref).Ok? && reg.fetch(ref).value.ImageIndex? ==>
                  var ds := reg.fetch(ref).value.manifests;
                  && (FindMatch(ds, t).NoPlatform? ==> s.outcome == Err(MissingPlatform))
                  && (FindMatch(ds, t) == NoMatch ==> s.outcome == Ok(None))
                  && (FindMatch(ds, t).Found? ==>
                        s.outcome == Ok(Some(Replace(ImagePath(i), PinnedImage(ref, ds[FindMatch(ds, t).index].digest)))))))
  {
  }

  /** Container `i` of `cs` resolves to the patch `p`. */
  predicate Emits(cs: seq<Container>, i: nat, t: Target, reg: Registry, p: PatchOperation) {
    i < |cs| && ResolveContainer(cs[i], i, t, reg).outcome == Ok(Some(p))
  }

  /** Container `i` of `cs` resolves without error. */
  predicate Resolves(cs: seq<Container>, i: nat, t: Target, reg: Registry) {
    i < |cs| && ResolveContainer(cs[i], i, t, reg).outcome.Ok?
  }

  /** The number of containers that carry an image. */
  function ImageCount(cs: seq<Container>): nat {
    if |cs| == 0 then 0 else (if cs[0].image.Some? then 1 else 0) + ImageCount(cs[1..])
  }

  /** Puts `ps` in front of a successful list; a failure stays the same failure. */
  function Prepend(ps: seq<PatchOperation>, o: Result<seq<PatchOperation>, MutationError>): Result<seq<PatchOperation>, MutationError> {
    match o
    case Ok(qs) => Ok(ps + qs)
    case Err(e) => Err(e)
  }

  /** The container loop from position `from` on. It succeeds exactly when
      every container resolves; otherwise it fails with the error of the first
      container that does not, and no patch survives. */
  function ResolveFrom(cs: seq<Container>, from: nat, t: Target, reg: Registry): (r: Run)
    requires from <= |cs|
    ensures r.outcome.Ok? <==> forall i :: from <= i < |cs| ==> Resolves(cs, i, t, reg)
    ensures r.outcome.Err? ==>
      exists i :: (from <= i < |cs| && ResolveContainer(cs[i], i, t, reg).outcome == Err(r.outcome.error)
                   && forall j :: from <= j < i ==> Resolves(cs, j, t, reg))
    decreases |cs| - from
  {
    if from == |cs| then
      Run(Ok([]), [])
    else
      var s := ResolveContainer(cs[from], from, t, reg);
      if s.outcome.Err? then
        assert !Resolves(cs, from, t, reg);
        Run(Err(s.outcome.error), s.fetched)
      else
        var rest := ResolveFrom(cs, from + 1, t, reg);
        var own := if s.outcome.value.Some? then [s.outcome.value.value] else [];
        Run(Prepend(own, rest.outcome), s.fetched + rest.fetched)
  }

  /** One step of the container loop: the container at `from` either fails
      the run or puts its patch, if any, in front of the rest. */
  lemma ResolveFromStep(cs: seq<Container>, from: nat, t: Target, reg: Registry)
    requires from < |cs|
    ensures var s := ResolveContainer(cs[from], from, t, reg);
            ResolveFrom(cs, from, t, reg).outcome ==
              if s.outcome.Err? then Err(s.outcome.error)
              else Prepend(if s.outcome.value.Some? then [s.outcome.value.value] else [],
                           ResolveFrom(cs, from + 1, t, reg).outcome)
  {
  }

  /** On success the patches address containers in strictly increasing
      position, at most one per container, and each is the patch its container
      resolved to. */
  lemma {:induction false} PatchesInContainerOrder(cs: seq<Container>, from: nat, t: Target, reg: Registry)
    requires from <= |cs| && ResolveFrom(cs, from, t, reg).outcome.Ok?
    ensures var ps := ResolveFrom(cs, from, t, reg).outcome.value;
      && (forall n :: 0 <= n < |ps| ==>
            PathIndex(ps[n].path).Some? && from <= PathIndex(ps[n].path).value
            && Emits(cs, PathIndex(ps[n].path).value, t, reg, ps[n]))
      && (forall m, n :: 0 <= m < n < |ps| ==>
            PathIndex(ps[m].path).Some? && PathIndex(ps[n].path).Some?
            && PathIndex(ps[m].path).value < PathIndex(ps[n].path).value)
    decreases |cs| - from
  {
    if from < |cs| {
      ResolveFromStep(cs, from, t, reg);
      PatchesInContainerOrder(cs, from + 1, t, reg);
      assert PathIndex(ImagePath(from)) == Some(from);
    }
  }

  /** On success no resolved container's patch is missing. */
  lemma {:induction false} EveryResolvedPatchEmitted(cs: seq<Container>, from: nat, t: Target, reg: Registry)
    requires from <= |cs| && ResolveFrom(cs, from, t, reg).outcome.Ok?
    ensures forall i, p :: from <= i && Emits(cs, i, t, reg, p) ==> p in ResolveFrom(cs, from, t, reg).outcome.value
    decreases |cs| - from
  {
    if from < |cs| {
      ResolveFromStep(cs, from, t, reg);
      EveryResolvedPatchEmitted(cs, from + 1, t, reg);
      assert Resolves(cs, from, t, reg);
      var s := ResolveContainer(cs[from], from, t, reg);
      var own := if s.outcome.value.Some? then [s.outcome.value.value] else [];
      var ps := ResolveFrom(cs, from, t, reg).outcome.value;
      assert ps == own + ResolveFrom(cs, from + 1, t, reg).outcome.value;
      forall i, p | from <= i && Emits(cs, i, t, reg, p)
        ensures p in ps
      {
        if i == from {
          assert own == [p];
        }
      }
    }
  }

  /** The references a run of containers pulls when none fails: the parsed
      reference of each container with an image, in container order. */
  function Pulled(cs: seq<Container>, reg: Registry): seq<Reference> {
    if |cs| == 0 then []
    else
      (if cs[0].image.Some? && reg.parse(cs[0].image.value).Ok? then [reg.parse(cs[0].image.value).value] else [])
      + Pulled(cs[1..], reg)
  }

  /** On success the pull log is each container's parsed image reference, in
      container order, one per container with an image, the same image
      appearing twice included: nothing is cached. */
  lemma {:induction false} OnePullPerImage(cs: seq<Container>, from: nat, t: Target, reg: Registry)
    requires from <= |cs| && ResolveFrom(cs, from, t, reg).outcome.Ok?
    ensures ResolveFrom(cs, from, t, reg).fetched == Pulled(cs[from..], reg)
    ensures |ResolveFrom(cs, from, t, reg).fetched| == ImageCount(cs[from..])
    decreases |cs| - from
  {
    if from == |cs| {
      assert cs[from..] == [];
    } else {
      ResolveFromStep(cs, from, t, reg);
      OnePullPerImage(cs, from + 1, t, reg);
      assert cs[from..][1..] == cs[from + 1..];
      assert cs[from..][0] == cs[from];
      assert Resolves(cs, from, t, reg);
      if cs[from].image.Some? {
        ContainerOutcomeCauses(cs[from], from, t, reg);
      }
    }
  }

  lemma PrependTwice(ps: seq<PatchOperation>, qs: seq<PatchOperation>, o: Result<seq<PatchOperation>, MutationError>)
    ensures Prepend(ps, Prepend(qs, o)) == Prepend(ps + qs, o)
  {
    if o.Ok? {
      assert ps + (qs + o.value) == (ps + qs) + o.value;
    }
  }

  /** The whole mutation of a Pod. Without an `aargh64` annotation, with one that
      has no `/`, or without a spec, it succeeds with no patch and pulls nothing. */
  function Mutate(pod: Pod, reg: Registry): (r: Run)
    ensures pod.annotations.None? || AnnotationKey !in pod.annotations.value
            || '/' !in pod.annotations.value[AnnotationKey] || pod.spec.None?
            ==> r == Run(Ok([]), [])
  {
    match PodTarget(pod)
    case None => Run(Ok([]), [])
    case Some(t) =>
      match pod.spec
      case None => Run(Ok([]), [])
      case Some(spec) => ResolveFrom(spec.containers, 0, t, reg)
  }

  /** The webhook's loop as written: containers in order, patches pushed onto a
      list, the first error returned at once. It computes what `Mutate` defines. */
  method MutatePod(pod: Pod, reg: Registry) returns (r: Result<seq<PatchOperation>, MutationError>)
    ensures r == Mutate(pod, reg).outcome
  {
    var target := PodTarget(pod);
    if target.None? || pod.spec.None? {
      return Ok([]);
    }
    var t := target.value;
    var cs := pod.spec.value.containers;
    var patches: seq<PatchOperation> := [];
    var i := 0;
    assert Prepend(patches, ResolveFrom(cs, 0, t, reg).outcome) == ResolveFrom(cs, 0, t, reg).outcome by {
      if ResolveFrom(cs, 0, t, reg).outcome.Ok? {
        assert [] + ResolveFrom(cs, 0, t, reg).outcome.value == ResolveFrom(cs, 0, t, reg).outcome.value;
      }
    }
    while i < |cs|
      invariant 0 <= i <= |cs|
      invariant ResolveFrom(cs, 0, t, reg).outcome == Prepend(patches, ResolveFrom(cs, i, t, reg).outcome)
    {
      var step := ResolveContainer(cs[i], i, t, reg);
      LoopStep(cs, i, t, reg, patches);
      match step.outcome {
        case Err(e) =>
          return Err(e);
        case Ok(None) =>
        case Ok(Some(p)) =>
          patches := patches + [p];
      }
      i := i + 1;
    }
    assert patches + [] == patches;
    return Ok(patches);
  }

  /** What one turn of the loop in `MutatePod` does to the outcome still to come. */
  lemma LoopStep(cs: seq<Container>, i: nat, t: Target, reg: Registry, patches: seq<PatchOperation>)
    requires i < |cs|
    ensures var s := ResolveContainer(cs[i], i, t, reg);
      Prepend(patches, ResolveFrom(cs, i, t, reg).outcome) ==
        match s.outcome
        case Err(e) => Err(e)
        case Ok(None) => Prepend(patches, ResolveFrom(cs, i + 1, t, reg).outcome)
        case Ok(Some(p)) => Prepend(patches + [p], ResolveFrom(cs, i + 1, t, reg).outcome)
  {
    var s := ResolveContainer(cs[i], i, t, reg);
    ResolveFromStep(cs, i, t, reg);
    if s.outcome.Ok? {
      if s.outcome.value.Some? {
        PrependTwice(patches, [s.outcome.value.value], ResolveFrom(cs, i + 1, t, reg).outcome);
      } else {
        PrependTwice(patches, [], ResolveFrom(cs, i + 1, t, reg).outcome);
        assert patches + [] == patches;
      }
    }
  }

  /** A failing container whose predecessors all resolve decides the outcome:
      the mutation fails with its error, whatever comes after it and whatever
      patches came before it. */
  lemma FirstFailureDecides(cs: seq<Container>, k: nat, t: Target, reg: Registry)
    requires k < |cs| && ResolveContainer(cs[k], k, t, reg).outcome.Err?
    requires forall j :: 0 <= j < k ==> Resolves(cs, j, t, reg)
    ensures ResolveFrom(cs, 0, t, reg).outcome == Err(ResolveContainer(cs[k], k, t, reg).outcome.error)
  {
    var r := ResolveFrom(cs, 0, t, reg);
    assert !Resolves(cs, k, t, reg);
    var i :| 0 <= i < |cs| && ResolveContainer(cs[i], i, t, reg).outcome == Err(r.outcome.error)
             && forall j :: 0 <= j < i ==> Resolves(cs, j, t, reg);
    assert i < k ==> Resolves(cs, i, t, reg);
    assert k < i ==> Resolves(cs, k, t, reg);
  }

  /** Container `i` after the patch: its image replaced by the patch value when it resolved to one. */
  function Pinned(cs: seq<Container>, i: nat, t: Target, reg: Registry): Container
    requires i < |cs|
  {
    match ResolveContainer(cs[i], i, t, reg).outcome
    case Ok(Some(p)) => cs[i].(image := Some(p.value))
    case _ => cs[i]
  }

  function PinnedAll(cs: seq<Container>, t: Target, reg: Registry): seq<Container> {
    seq(|cs|, i requires 0 <= i < |cs| => Pinned(cs, i, t, reg))
  }

  lemma {:induction false} ApplyResolvedFrom(cs: seq<Container>, cur: seq<Container>, from: nat, t: Target, reg: Registry)
    requires from <= |cs| == |cur|
    requires forall i :: from <= i < |cs| ==> cur[i] == cs[i]
    requires ResolveFrom(cs, from, t, reg).outcome.Ok?
    ensures Apply(cur, ResolveFrom(cs, from, t, reg).outcome.value) == Some(cur[..from] + PinnedAll(cs, t, reg)[from..])
    decreases |cs| - from, 1
  {
    if from == |cs| {
      assert cur[..from] + PinnedAll(cs, t, reg)[from..] == cur;
    } else if ResolveContainer(cs[from], from, t, reg).outcome.value.None? {
      ApplySkipped(cs, cur, from, t, reg);
    } else {
      ApplyPinned(cs, cur, from, t, reg);
    }
  }

  /** The container at `from` resolved to no patch: nothing is applied for it. */
  lemma {:induction false} ApplySkipped(cs: seq<Container>, cur: seq<Container>, from: nat, t: Target, reg: Registry)
    requires from < |cs| == |cur|
    requires forall i :: from <= i < |cs| ==> cur[i] == cs[i]
    requires ResolveFrom(cs, from, t, reg).outcome.Ok?
    requires ResolveContainer(cs[from], from, t, reg).outcome == Ok(None)
    ensures Apply(cur, ResolveFrom(cs, from, t, reg).outcome.value) == Some(cur[..from] + PinnedAll(cs, t, reg)[from..])
    decreases |cs| - from, 0
  {
    var all := PinnedAll(cs, t, reg);
    ResolveFromStep(cs, from, t, reg);
    assert ResolveFrom(cs, from, t, reg).outcome.value == [] + ResolveFrom(cs, from + 1, t, reg).outcome.value;
    assert [] + ResolveFrom(cs, from + 1, t, reg).outcome.value == ResolveFrom(cs, from + 1, t, reg).outcome.value;
    ApplyResolvedFrom(cs, cur, from + 1, t, reg);
    assert all[from] == cur[from];
    SpliceOneFurther(cur, all, from);
  }

  /** The container at `from` resolved to a patch: its replace is applied first. */
  lemma {:induction false} ApplyPinned(cs: seq<Container>, cur: seq<Container>, from: nat, t: Target, reg: Registry)
    requires from < |cs| == |cur|
    requires forall i :: from <= i < |cs| ==> cur[i] == cs[i]
    requires ResolveFrom(cs, from, t, reg).outcome.Ok?
    requires ResolveContainer(cs[from], from, t, reg).outcome.Ok?
    requires ResolveContainer(cs[from], from, t, reg).outcome.value.Some?
    ensures Apply(cur, ResolveFrom(cs, from, t, reg).outcome.value) == Some(cur[..from] + PinnedAll(cs, t, reg)[from..])
    decreases |cs| - from, 0
  {
    var all := PinnedAll(cs, t, reg);
    var p := ResolveContainer(cs[from], from, t, reg).outcome.value.value;
    var qs := ResolveFrom(cs, from + 1, t, reg).outcome.value;
    ResolveFromStep(cs, from, t, reg);
    assert ResolveFrom(cs, from, t, reg).outcome.value == [p] + qs;
    ApplyReplaceStep(cur, from, p, qs);
    var cur' := cur[from := cur[from].(image := Some(p.value))];
    ApplyResolvedFrom(cs, cur', from + 1, t, reg);
    PinnedSplice(cur, all, from, Some(p.value));
  }

  /** Replacing the image at `from` moves the splice point past `from`. */
  lemma PinnedSplice(cur: seq<Container>, all: seq<Container>, from: nat, image: Option<string>)
    requires from < |cur| == |all| && all[from] == cur[from].(image := image)
    ensures cur[from := cur[from].(image := image)][..from + 1] + all[from + 1..] == cur[..from] + all[from..]
  {
    var cur' := cur[from := cur[from].(image := image)];
    SpliceOneFurther(cur', all, from);
    assert cur'[..from] == cur[..from];
  }

  /** Moving the splice point past a position where both sequences agree. */
  lemma SpliceOneFurther<T>(a: seq<T>, b: seq<T>, k: nat)
    requires k < |a| == |b| && a[k] == b[k]
    ensures a[..k + 1] + b[k + 1..] == a[..k] + b[k..]
  {
    assert a[..k + 1] == a[..k] + [a[k]];
    assert b[k..] == [b[k]] + b[k + 1..];
  }

  /** Applying a replace whose pointer addresses an existing image member. */
  lemma ApplyReplaceStep(cur: seq<Container>, i: nat, p: PatchOperation, qs: seq<PatchOperation>)
    requires i < |cur| && cur[i].image.Some? && PathIndex(p.path) == Some(i)
    ensures Apply(cur, [p] + qs) == Apply(cur[i := cur[i].(image := Some(p.value))], qs)
  {
    var ps := [p] + qs;
    assert ps[0] == p && ps[1..] == qs;
  }

  /** Applying the emitted patch to the Pod's containers succeeds and pins
      exactly the containers that resolved, each to its pinned image, leaving
      every other container as it was. */
  lemma PatchPinsImages(pod: Pod, reg: Registry)
    requires PodTarget(pod).Some? && pod.spec.Some?
    requires Mutate(pod, reg).outcome.Ok?
    ensures Apply(pod.spec.value.containers, Mutate(pod, reg).outcome.value)
            == Some(PinnedAll(pod.spec.value.containers, PodTarget(pod).value, reg))
  {
    var cs := pod.spec.value.containers;
    ApplyResolvedFrom(cs, cs, 0, PodTarget(pod).value, reg);
    assert cs[..0] + PinnedAll(cs, PodTarget(pod).value, reg)[0..] == PinnedAll(cs, PodTarget(pod).value, reg);
  }

  /** A Pod annotated `linux/arm64` whose one image `example.com/app:1.0` has an
      index listing amd64 then arm64 entries is patched to the arm64 digest. */
  lemma PinsArm64Example(reg: Registry)
    requires reg.parse("example.com/app:1.0") == Ok(Reference("example.com", "app", Some("1.0"), None))
    requires reg.fetch(Reference("example.com", "app", Some("1.0"), None)) == Ok(ImageIndex([
      Descriptor("sha256:aaa", Some(Platform("linux", "amd64", None))),
      Descriptor("sha256:bbb", Some(Platform("linux", "arm64", None)))]))
    ensures Mutate(Pod(Some(map[AnnotationKey := "linux/arm64"]),
                       Some(PodSpec([Container("app", Some("example.com/app:1.0"))]))), reg)
            == Run(Ok([Replace("/spec/containers/0/image", "example.com/app@sha256:bbb")]),
                   [Reference("example.com", "app", Some("1.0"), None)])
  {
    var cs := [Container("app", Some("example.com/app:1.0"))];
    var pod := Pod(Some(map[AnnotationKey := "linux/arm64"]), Some(PodSpec(cs)));
    var t := Target("linux", "arm64");
    AnnotationRoundTrip(pod, t);
    ExampleContainerPinned(reg, cs[0], t);
    SoleContainer(cs, t, reg);
  }

  /** A Pod with one container runs exactly that container's step. */
  lemma SoleContainer(cs: seq<Container>, t: Target, reg: Registry)
    requires |cs| == 1 && ResolveContainer(cs[0], 0, t, reg).outcome.Ok?
    ensures var s := ResolveContainer(cs[0], 0, t, reg);
      ResolveFrom(cs, 0, t, reg)
      == Run(Ok(if s.outcome.value.Some? then [s.outcome.value.value] else []), s.fetched)
  {
    var s := ResolveContainer(cs[0], 0, t, reg);
    assert ResolveFrom(cs, 1, t, reg) == Run(Ok([]), []);
    assert s.fetched + [] == s.fetched;
    var own: seq<PatchOperation> := if s.outcome.value.Some? then [s.outcome.value.value] else [];
    assert own + [] == own;
  }

  lemma ExampleContainerPinned(reg: Registry, c: Container, t: Target)
    requires reg.parse("example.com/app:1.0") == Ok(Reference("example.com", "app", Some("1.0"), None))
    requires reg.fetch(Reference("example.com", "app", Some("1.0"), None)) == Ok(ImageIndex([
      Descriptor("sha256:aaa", Some(Platform("linux", "amd64", None))),
      Descriptor("sha256:bbb", Some(Platform("linux", "arm64", None)))]))
    requires c == Container("app", Some("example.com/app:1.0")) && t == Target("linux", "arm64")
    ensures ResolveContainer(c, 0, t, reg)
      == Step(Ok(Some(Replace("/spec/containers/0/image", "example.com/app@sha256:bbb"))),
              [Reference("example.com", "app", Some("1.0"), None)])
  {
    var ref := Reference("example.com", "app", Some("1.0"), None);
    ExampleIndexPicksArm64(reg.fetch(ref).value.manifests, t);
    ExampleFormatting(ref);
  }

  lemma ExampleIndexPicksArm64(ds: seq<Descriptor>, t: Target)
    requires t == Target("linux", "arm64")
    requires ds == [Descriptor("sha256:aaa", Some(Platform("linux", "amd64", None))),
                    Descriptor("sha256:bbb", Some(Platform("linux", "arm64", None)))]
    ensures FindMatch(ds, t) == Found(1)
  {
    assert "amd64"[1] != "arm64"[1];
    assert DecidedFrom(ds, t, 0, Found(1));
    DecisionIsUnique(ds, t, Found(1));
  }

  lemma ExampleFormatting(ref: Reference)
    requires ref == Reference("example.com", "app", Some("1.0"), None)
    ensures ImagePath(0) == "/spec/containers/0/image"
    ensures PinnedImage(ref, "sha256:bbb") == "example.com/app@sha256:bbb"
  {
    assert NatToString(0) == "0";
  }
}
