# aargh64 platform pinning, modelled in Dafny

aargh64 is a Kubernetes mutating admission webhook. When a Pod carries the
annotation `aargh64: <os>/<architecture>`, the webhook resolves each container
image to the digest of the entry for that platform in the image's
multi-platform OCI index. It then answers with an RFC 6902 JSON Patch that
replaces `/spec/containers/<i>/image` with `<registry>/<repository>@<digest>`.

This project models the decision logic of `mutate` and the outcome mapping of
`mutate_handler` in `rust/src/main.rs`. The model is pure and functional:

- `results.dfy`: `Option` and `Result`.
- `pods.dfy`: the Pod, its annotations and its containers.
- `target.dfy` (module `TargetPlatform`): `split_once('/')` and the target read
  from the annotation.
- `matcher.dfy`: manifests, index entries and the first-match search done by
  `iter().find` with its `expect("No platform")`.
- `decimal.dfy`: the `{}` rendering of a container position and its canonical
  reading back.
- `jsonpatch.dfy`: the "replace" operation, the image pointer and its inverse,
  and the application of a patch to the containers (section 4.3 of RFC 6902).
  Application is the partner definition that gives the emitted patch its meaning.
- `mutation.dfy`: one container's resolution, and the container loop as a
  recursive fold that stops at the first error. `MutatePod` is the loop as
  written, proved equal to the fold.
- `admission.dfy`: the handler's allow, deny and abort outcomes.

Two collaborators are parameters, bundled in `Mutation.Registry`:
`parse: string -> Result<Reference, string>` stands for `Reference::parse`, and
`fetch: Reference -> Result<Manifest, string>` stands for the anonymous
`pull_manifest`. Each `Run` logs the references whose manifests were pulled, in
call order, so "nothing is fetched" and "one pull per container" can be stated.

The model follows the code as written:

- Containers are processed one after another, not concurrently.
- A mutation error becomes a deny carrying the error's message. It does not
  fail open.
- An annotation value without `/` is a silent no-op, not an error.
- An index with no entry for the target skips that container without error.
- The `PlatformOverride` custom resource is declared but never consulted.
- An index entry without platform metadata, reached before a match, panics
  through `expect`. It is modelled as `MissingPlatform`, and the handler then
  gives `Reply.Aborted` instead of a response.
- Only os and architecture are compared. An annotation `linux/arm/v7` asks for
  architecture `arm/v7`, so it cannot match an entry that records `arm` with
  variant `v7`.

## Model

| member | source | states |
|---|---|---|
| `TargetPlatform.SplitOnce` | rust/src/main.rs:74 | there is no split exactly when the value has no `/`; otherwise the value is `os + "/" + architecture`, and `os` contains no `/` |
| `TargetPlatform.SplitOnceOfJoin` | rust/src/main.rs:74 | splitting `a + "/" + b`, with `a` free of `/`, gives back exactly `(a, b)` |
| `TargetPlatform.PodTarget` | rust/src/main.rs:72-74 | a target exists iff annotations exist, contain `aargh64`, and its value contains `/`; the target is the split at the first `/` |
| `TargetPlatform.AnnotationRoundTrip` | rust/src/main.rs:72-74 | any annotation `os/architecture` whose os has no `/` is read back as exactly that target |
| `TargetPlatform.VariantStaysInArchitecture` | rust/src/main.rs:74 | `linux/arm/v7` splits into os `linux` and architecture `arm/v7` |
| `Matcher.FindMatch` | rust/src/main.rs:83-94 | the decision is the first entry in index order that matches on os and architecture, or the first entry without a platform met before any match, or no match when every entry has a non-matching platform |
| `Matcher.DecisionIsUnique` | rust/src/main.rs:83-94 | that first-decision description fits one outcome only, so it characterises the search in both directions |
| `Matcher.LaterEntriesIgnored` | rust/src/main.rs:83-94 | entries after the matched one, or after the first one without a platform, are never inspected; replacing them changes nothing, even by entries without a platform |
| `Matcher.NonMatchingEntryIrrelevant` | rust/src/main.rs:83-93 | inserting an entry with a non-target platform anywhere only shifts positions; the chosen entry, and so its digest, is unchanged |
| `Decimal.ParseOfNatToString` | rust/src/main.rs:97 | reading a rendered container position back gives the position |
| `Decimal.NatToStringOfParse` | rust/src/main.rs:97 | rendering the number a canonical decimal denotes gives that text back |
| `JsonPatch.ImagePath` | rust/src/main.rs:97 | the pointer built for container position `i` addresses exactly position `i` (read back through the canonical-decimal pointer reader) |
| `JsonPatch.ImagePathOfPathIndex` | rust/src/main.rs:97 | every pointer that addresses a container image is the pointer built for that position |
| `JsonPatch.ImagePathInjective` | rust/src/main.rs:97 | different positions get different pointers |
| `JsonPatch.Apply` | rust/src/main.rs:95-105 | a patch that applies keeps the number of containers and their names, changes no image member's presence, and addresses only existing positions |
| `Mutation.ResolveContainer` | rust/src/main.rs:77-106 | a container without an image contributes nothing and pulls nothing; at most one manifest is pulled; a patch replaces the image of the container's own position |
| `Mutation.PinnedImageSplitsBack` | rust/src/main.rs:98-103 | the patch value `registry/repository@digest` reads back: split at its first `@` it gives the name and the digest when the name has no `@`, and the name split at its first `/` gives registry and repository when the registry has no `/` |
| `Mutation.ContainerOutcomeCauses` | rust/src/main.rs:77-106 | both directions for a container with an image. A parse failure gives `InvalidReference` with the parser's text and pulls nothing. Otherwise the parsed reference is pulled once. A failed pull gives `RegistryFailure` with its text. A single-platform manifest gives `NotAnImageIndex`. An entry without platform before any match gives `MissingPlatform`. No matching entry gives no patch. The first matching entry gives the replace at the container's pointer, pinned to that entry's digest. Conversely, each outcome implies its cause |
| `Mutation.ResolveFrom` | rust/src/main.rs:76-108 | the loop succeeds iff every container resolves; otherwise it fails with the first failing container's error, and no patch list is returned |
| `Mutation.PatchesInContainerOrder` | rust/src/main.rs:76-106 | on success each patch is what its container resolved to, and patch positions strictly increase: at most one patch per container, in container order |
| `Mutation.EveryResolvedPatchEmitted` | rust/src/main.rs:76-106 | on success every container that resolved to a patch has that patch in the list |
| `Mutation.OnePullPerImage` | rust/src/main.rs:76-79 | on success the pull log is the parsed reference of each container with an image, in container order, so one pull per such container, repeated images included |
| `Mutation.FirstFailureDecides` | rust/src/main.rs:78-82 | a failing container whose predecessors all resolve fails the whole Pod with its error; earlier patches are discarded |
| `Mutation.Mutate` | rust/src/main.rs:70-75 | no annotations, no `aargh64` key, a value without `/`, or no spec each yield success with an empty patch and no manifest pull |
| `Mutation.MutatePod` | rust/src/main.rs:70-117 | the imperative loop (push patches, return on the first error) computes exactly the fold's outcome |
| `Mutation.PatchPinsImages` | rust/src/main.rs:95-105 | applying the emitted patch to the Pod's containers succeeds; it sets each resolved container's image to its pinned value and leaves every other container unchanged |
| `Mutation.PinsArm64Example` | rust/src/main.rs:70-117 | `linux/arm64` with index [amd64 `sha256:aaa`, arm64 `sha256:bbb`] for `example.com/app:1.0` gives exactly one replace of `/spec/containers/0/image` with `example.com/app@sha256:bbb` |
| `Admission.Handle` | rust/src/main.rs:43-56 | no object gives the base allow response unchanged; success allows with the patch attached; `MissingPlatform` aborts with "No platform"; any other error denies with its message and no patch; the uid is kept |
| `Admission.FailureIsNeverAllowed` | rust/src/main.rs:50-53 | a failed mutation is never allowed: the Pod is denied, or the request gets no response |
| `Admission.SinglePlatformImageDenied` | rust/src/main.rs:50-80 | when the first container that fails pulls a single-platform manifest, the Pod is denied with exactly `Not an image index` and no patch |
| `Admission.PlatformlessEntryAborts` | rust/src/main.rs:44-84 | when the first container that fails has an index entry without platform before any match, the handler panics with `No platform` and sends no response |
| `Admission.LibraryErrorDenied` | rust/src/main.rs:50-79 | when the first container that fails has an image that does not parse or a manifest pull that fails, the Pod is denied with that library's own error text and no patch |
| `Admission.UnannotatedPodAllowedWithEmptyPatch` | rust/src/main.rs:43-56 | a Pod without the annotation is allowed with an empty patch attached |

## Left out

- The TLS server, certificate paths and routing (rust/src/main.rs:15-30): I/O and configuration.
- Rejection of an unreadable admission review (rust/src/main.rs:33-41): envelope deserialisation belongs to the kube library.
- `get_manifest` and the registry client (rust/src/main.rs:59-68): network I/O. It is replaced by the `fetch` parameter.
- The grammar of `Reference::parse` belongs to a foreign library. It is replaced by the `parse` parameter. A `Reference` keeps registry and repository, which the patch uses, and tag and digest, which only `fetch` sees.
- The `?` on `with_patch` (rust/src/main.rs:117) can only fail when serialising string operations to JSON fails. It is treated as infallible, and `patch_type` is not modelled.
- `debug!`, `info!`, `warn!` and `error!` logging: no behavioural content.
- rust/src/platform_override.rs declares a custom resource that `mutate` never reads.
- JsonPatch.Apply: it models only pointers of the form `/spec/containers/<n>/image`, which are all the webhook emits. Any other pointer is treated as failing, not as a general JSON Pointer.
- Registry.fetch is a function of the reference, so two pulls of the same image always see the same manifest. A real registry may answer two pulls differently, for instance when a tag moves between them. No property proved here depends on this.
- How a panic propagates through the async runtime is not modelled. `Reply.Aborted` stands for "no admission response".
