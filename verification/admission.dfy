/** The outcome mapping of the webhook's request handler: a request without an
    object is allowed as is, a mutation that succeeds is allowed with its patch
    attached, and a mutation that fails is denied with the error's message. */
module Admission {
  import opened Results
  import opened Pods
  import opened JsonPatch
  import opened TargetPlatform
  import opened Matcher
  import opened Mutation

  /** The admission request: its identifier and the Pod under admission, if any. */
  datatype Request = Request(uid: string, obj: Option<Pod>)

  /** The admission response: whether the Pod is allowed, the status message
      of a denial, and the JSON Patch attached to an allowed mutation. */
  datatype Response = Response(uid: string, allowed: bool, message: Option<string>, patch: Option<seq<PatchOperation>>)

  /** What the handler produces: a response, or nothing because the mutation
      panicked (the index search met an entry without platform metadata). */
  datatype Reply = Review(response: Response) | Aborted(panic: string)

  /** The response every request starts from: allowed, no message, no patch. */
  function AllowResponse(req: Request): Response
  {
    Response(req.uid, true, None, None)
  }

  /** Turns a denial reason into a denied copy of the response. */
  function Deny(res: Response, reason: string): Response
  {
    res.(allowed := false, message := Some(reason))
  }

  /** Attaches the patch to the response, even when it holds no operation. */
  function WithPatch(res: Response, ps: seq<PatchOperation>): Response
  {
    res.(patch := Some(ps))
  }

  /** The handler's decision for one request. */
  function Handle(req: Request, reg: Registry): (r: Reply)
    ensures req.obj.None? ==> r == Review(AllowResponse(req))
    ensures r.Aborted? <==> req.obj.Some? && Mutate(req.obj.value, reg).outcome == Err(MissingPlatform)
    ensures r.Aborted? ==> r.panic == "No platform"
    ensures r.Review? ==> r.response.uid == req.uid
    ensures r.Review? ==> (r.response.allowed <==> req.obj.None? || Mutate(req.obj.value, reg).outcome.Ok?)
    ensures r.Review? && !r.response.allowed ==>
      r.response.message == Some(Message(Mutate(req.obj.value, reg).outcome.error))
      && r.response.patch.None?
    ensures r.Review? && r.response.allowed ==> r.response.message.None?
    ensures r.Review? ==> (r.response.patch.Some? <==> req.obj.Some? && Mutate(req.obj.value, reg).outcome.Ok?)
    ensures r.Review? && r.response.patch.Some? ==> r.response.patch.value == Mutate(req.obj.value, reg).outcome.value
  {
    var base := AllowResponse(req);
    match req.obj
    case None => Review(base)
    case Some(pod) =>
      match Mutate(pod, reg).outcome
      case Ok(ps) => Review(WithPatch(base, ps))
      case Err(MissingPlatform) => Aborted(Message(MissingPlatform))
      case Err(e) => Review(Deny(base, Message(e)))
  }

  /** A failed mutation is never admitted: the Pod is denied or the request gets no response. */
  lemma FailureIsNeverAllowed(req: Request, reg: Registry)
    requires req.obj.Some? && Mutate(req.obj.value, reg).outcome.Err?
    ensures Handle(req, reg).Aborted? || !Handle(req, reg).response.allowed
  {
  }

  /** A Pod that names no target platform is admitted with an empty patch. */
  lemma UnannotatedPodAllowedWithEmptyPatch(req: Request, reg: Registry)
    requires req.obj.Some?
    requires req.obj.value.annotations.None? || AnnotationKey !in req.obj.value.annotations.value
    ensures Handle(req, reg) == Review(Response(req.uid, true, None, Some([])))
  {
  }

  /** A container whose manifest is a single-platform image, reached after
      containers that all resolve, gets the Pod denied with "Not an image index". */
  lemma SinglePlatformImageDenied(req: Request, reg: Registry, k: nat)
    requires req.obj.Some? && PodTarget(req.obj.value).Some? && req.obj.value.spec.Some?
    requires var cs := req.obj.value.spec.value.containers;
      && k < |cs| && cs[k].image.Some? && reg.parse(cs[k].image.value).Ok?
      && reg.fetch(reg.parse(cs[k].image.value).value) == Ok(Image)
      && forall j :: 0 <= j < k ==> Resolves(cs, j, PodTarget(req.obj.value).value, reg)
    ensures Handle(req, reg) == Review(Response(req.uid, false, Some("Not an image index"), None))
  {
    var cs := req.obj.value.spec.value.containers;
    var t := PodTarget(req.obj.value).value;
    ContainerOutcomeCauses(cs[k], k, t, reg);
    FirstFailureDecides(cs, k, t, reg);
  }

  /** A container whose index has an entry without platform before any match,
      reached after containers that all resolve, makes the handler panic with
      "No platform": no response at all. */
  lemma PlatformlessEntryAborts(req: Request, reg: Registry, k: nat)
    requires req.obj.Some? && PodTarget(req.obj.value).Some? && req.obj.value.spec.Some?
    requires var cs := req.obj.value.spec.value.containers;
      && k < |cs| && cs[k].image.Some? && reg.parse(cs[k].image.value).Ok?
      && var m := reg.fetch(reg.parse(cs[k].image.value).value);
      && m.Ok? && m.value.ImageIndex?
      && FindMatch(m.value.manifests, PodTarget(req.obj.value).value).NoPlatform?
      && forall j :: 0 <= j < k ==> Resolves(cs, j, PodTarget(req.obj.value).value, reg)
    ensures Handle(req, reg) == Aborted("No platform")
  {
    var cs := req.obj.value.spec.value.containers;
    var t := PodTarget(req.obj.value).value;
    ContainerOutcomeCauses(cs[k], k, t, reg);
    FirstFailureDecides(cs, k, t, reg);
  }

  /** A container whose image fails to parse, or whose manifest pull fails,
      reached after containers that all resolve, gets the Pod denied with the
      library's own error text. */
  lemma LibraryErrorDenied(req: Request, reg: Registry, k: nat, message: string)
    requires req.obj.Some? && PodTarget(req.obj.value).Some? && req.obj.value.spec.Some?
    requires var cs := req.obj.value.spec.value.containers;
      && k < |cs| && cs[k].image.Some?
      && (|| reg.parse(cs[k].image.value) == Err(message)
          || (reg.parse(cs[k].image.value).Ok? && reg.fetch(reg.parse(cs[k].image.value).value) == Err(message)))
      && forall j :: 0 <= j < k ==> Resolves(cs, j, PodTarget(req.obj.value).value, reg)
    ensures Handle(req, reg) == Review(Response(req.uid, false, Some(message), None))
  {
    var cs := req.obj.value.spec.value.containers;
    var t := PodTarget(req.obj.value).value;
    ContainerOutcomeCauses(cs[k], k, t, reg);
    FirstFailureDecides(cs, k, t, reg);
  }
}
