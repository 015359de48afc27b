/** Manifests as the registry returns them, and the choice of the index entry
    whose platform is the target. */
module Matcher {
  import opened Results
  import opened TargetPlatform

  /** The platform an index entry is built for; the variant is carried but never compared. */
  datatype Platform = Platform(os: string, architecture: string, variant: Option<string>)

  /** One entry of an image index; the platform metadata is optional in the OCI format. */
  datatype Descriptor = Descriptor(digest: string, platform: Option<Platform>)

  /** A pulled manifest: a single-platform image or a multi-platform index. */
  datatype Manifest = Image | ImageIndex(manifests: seq<Descriptor>)

  /** What the search over an index decides: the position of the chosen entry,
      no entry at all, or the position of an entry without platform metadata,
      reached before any match, on which the search gives up. */
  datatype Match = Found(index: nat) | NoMatch | NoPlatform(index: nat)

  /** Exact equality on os and architecture, nothing else. */
  predicate Matches(p: Platform, t: Target) {
    p.os == t.os && p.architecture == t.architecture
  }

  /** An entry the search looks at and moves past. */
  predicate Passed(d: Descriptor, t: Target) {
    d.platform.Some? && !Matches(d.platform.value, t)
  }

  /** `m` is the decision of a left-to-right search over `ds[from..]` that stops
      at the first entry that matches or lacks a platform. */
  predicate DecidedFrom(ds: seq<Descriptor>, t: Target, from: nat, m: Match) {
    match m
    case Found(i) =>
      from <= i < |ds| && ds[i].platform.Some? && Matches(ds[i].platform.value, t)
      && forall j :: from <= j < i ==> Passed(ds[j], t)
    case NoPlatform(i) =>
      from <= i < |ds| && ds[i].platform.None?
      && forall j :: from <= j < i ==> Passed(ds[j], t)
    case NoMatch =>
      forall j :: from <= j < |ds| ==> Passed(ds[j], t)
  }

  function FindFrom(ds: seq<Descriptor>, t: Target, from: nat): (m: Match)
    requires from <= |ds|
    ensures DecidedFrom(ds, t, from, m)
    decreases |ds| - from
  {
    if from == |ds| then NoMatch
    else if ds[from].platform.None? then NoPlatform(from)
    else if Matches(ds[from].platform.value, t) then Found(from)
    else FindFrom(ds, t, from + 1)
  }

  /** The index search of the webhook: entries in order, the first whose os and
      architecture both equal the target wins. */
  function FindMatch(ds: seq<Descriptor>, t: Target): (m: Match)
    ensures DecidedFrom(ds, t, 0, m)
  {
    FindFrom(ds, t, 0)
  }

  /** Only one decision fits the description, so the description defines the search. */
  lemma DecisionIsUnique(ds: seq<Descriptor>, t: Target, m: Match)
    ensures DecidedFrom(ds, t, 0, m) <==> m == FindMatch(ds, t)
  {
  }

  /** Entries after the one the search stops at are never inspected: replacing
      them by anything, including entries without a platform, changes nothing. */
  lemma LaterEntriesIgnored(ds: seq<Descriptor>, t: Target, rest: seq<Descriptor>)
    requires !FindMatch(ds, t).NoMatch?
    ensures FindMatch(ds[..FindMatch(ds, t).index + 1] + rest, t) == FindMatch(ds, t)
  {
    var m := FindMatch(ds, t);
    var ds' := ds[..m.index + 1] + rest;
    assert forall j :: 0 <= j <= m.index ==> ds'[j] == ds[j];
    assert DecidedFrom(ds', t, 0, m);
    DecisionIsUnique(ds', t, m);
  }

  /** The decision after inserting an entry at position `at`: positions at or after it move by one. */
  function ShiftedAt(m: Match, at: nat): Match {
    match m
    case Found(i) => Found(if i < at then i else i + 1)
    case NoPlatform(i) => NoPlatform(if i < at then i else i + 1)
    case NoMatch => NoMatch
  }

  /** Inserting an entry that carries a platform other than the target anywhere
      in the index leaves the chosen entry (and so its digest) unchanged. */
  lemma NonMatchingEntryIrrelevant(ds: seq<Descriptor>, t: Target, at: nat, d: Descriptor)
    requires at <= |ds| && Passed(d, t)
    ensures FindMatch(ds[..at] + [d] + ds[at..], t) == ShiftedAt(FindMatch(ds, t), at)
    ensures FindMatch(ds, t).Found? ==>
      var k := FindMatch(ds[..at] + [d] + ds[at..], t).index;
      k < |ds| + 1 && (ds[..at] + [d] + ds[at..])[k] == ds[FindMatch(ds, t).index]
  {
    var ds' := ds[..at] + [d] + ds[at..];
    var m := FindMatch(ds, t);
    assert forall j :: 0 <= j < at ==> ds'[j] == ds[j];
    assert ds'[at] == d;
    assert forall j :: at < j < |ds'| ==> ds'[j] == ds[j - 1];
    var m' := ShiftedAt(m, at);
    assert DecidedFrom(ds', t, 0, m') by {
      match m
      case Found(i) =>
        assert forall j :: 0 <= j < m'.index ==> Passed(ds'[j], t) by {
          forall j | 0 <= j < m'.index ensures Passed(ds'[j], t) {
            if j < at { } else if j == at { } else { assert Passed(ds[j - 1], t); }
          }
        }
      case NoPlatform(i) =>
        assert forall j :: 0 <= j < m'.index ==> Passed(ds'[j], t) by {
          forall j | 0 <= j < m'.index ensures Passed(ds'[j], t) {
            if j < at { } else if j == at { } else { assert Passed(ds[j - 1], t); }
          }
        }
      case NoMatch =>
        forall j | 0 <= j < |ds'| ensures Passed(ds'[j], t) {
          if j < at { } else if j == at { } else { assert Passed(ds[j - 1], t); }
        }
    }
    DecisionIsUnique(ds', t, m');
  }
}
