/**
 `AttachSignature`: a signature bundle is pushed as a referrer of an index that
 is already there, and discovery finds it again (internal/oci/sign.go:119-144,
 internal/oci/pull.go:165-250).
 */
module Attach {
  import opened Wrappers
  import opened Codec
  import opened Assemble
  import opened Pull
  import opened Verify
  import Push
  import Pipeline

  const EMPTY_JSON: MediaType := Other("application/vnd.oci.empty.v1+json")

  // ---------------------------------------------------------------------
  // What is attached

  function BundleBlob(w: Wire, bundle: Bytes): Blob
  {
    NewBlob(w, SigstoreBundle, bundle)
  }

  /** The minimal config of an artifact that needs none. */
  function EmptyConfig(w: Wire): Blob
  {
    NewBlob(w, EMPTY_JSON, "{}")
  }

  function ReferrerManifest(w: Wire, index: Descriptor, bundle: Bytes): Manifest
  {
    Manifest(ImageManifest, EmptyConfig(w).Descriptor(), [BundleBlob(w, bundle).Descriptor()], Some(SigstoreBundle),
      Some(index))
  }

  function ReferrerBlob(w: Wire, index: Descriptor, bundle: Bytes): Blob
  {
    NewBlob(w, ImageManifest, w.encodeManifest(ReferrerManifest(w, index, bundle)))
  }

  /** The bundle, the config, and the manifest that refers to the index. */
  function AttachSteps(w: Wire, index: Descriptor, bundle: Bytes): seq<Push.Step>
  {
    [Push.Put(BundleBlob(w, bundle)), Push.Put(EmptyConfig(w)), Push.Put(ReferrerBlob(w, index, bundle))]
  }

  function AttachBytes(w: Wire, index: Descriptor, bundle: Bytes): set<Bytes>
  {
    {bundle, "{}", ReferrerBlob(w, index, bundle).data}
  }

  // ---------------------------------------------------------------------
  // The program

  /** Taking the step that is next. */
  lemma NextReached(s: Push.Store, steps: seq<Push.Step>, k: nat, t: Push.Store)
    requires k < |steps| && Push.Reached(s, steps, k, t)
    ensures Push.Reached(s, steps, k + 1, Push.Do(t, steps[k]))
  {
    Push.RunStep(s, steps, k);
  }

  /**
   Whatever fails, the target has received some prefix of the steps, and success
   means all of them. The bundle is pushed without asking whether it is there, so
   a target that rejects duplicates never takes the same bundle again.
   */
  method AttachSignature(w: Wire, target: Push.Target, index: Descriptor, bundle: Bytes) returns (ok: bool)
    modifies target`requests, target`store
    ensures exists k :: Push.Reached(old(target.store), AttachSteps(w, index, bundle), k, target.store)
    ensures ok ==> target.store == Push.Run(old(target.store), AttachSteps(w, index, bundle))
    ensures target.Faultless() ==>
      (ok <==> !(target.rejectsDuplicates && Push.Present(old(target.store), BundleBlob(w, bundle).Descriptor())))
    ensures target.rejectsDuplicates && Push.Present(old(target.store), BundleBlob(w, bundle).Descriptor()) ==> !ok
  {
    ghost var before, steps := target.store, AttachSteps(w, index, bundle);
    assert steps[..0] == [];
    assert Push.Reached(before, steps, 0, target.store);
    NextReached(before, steps, 0, target.store);
    ok := target.Push(BundleBlob(w, bundle));
    if !ok {
      return;
    }
    NextReached(before, steps, 1, target.store);
    ok := Push.PushBlobTo(target, EmptyConfig(w));
    if !ok {
      return;
    }
    NextReached(before, steps, 2, target.store);
    ok := Push.PushBlobTo(target, ReferrerBlob(w, index, bundle));
    assert steps[..3] == steps;
  }

  // ---------------------------------------------------------------------
  // What attaching keeps

  /** Nothing that was there is replaced. */
  ghost predicate Keeps(s: Push.Store, t: Push.Store)
  {
    && s.tags == t.tags
    && (forall d :: d in s.blobs ==> d in t.blobs && t.blobs[d] == s.blobs[d])
    && forall d :: d in s.manifests ==> d in t.manifests && t.manifests[d] == s.manifests[d]
  }

  lemma {:induction false} PutsKeep(s: Push.Store, steps: seq<Push.Step>)
    requires forall i :: 0 <= i < |steps| ==> steps[i].Put?
    ensures Keeps(s, Push.Run(s, steps))
  {
    if steps != [] {
      PutsKeep(s, steps[..|steps| - 1]);
    }
  }

  /** After every prefix of an attach a closed store is closed: the referrer comes after what it names. */
  lemma AttachKeepsClosed(w: Wire, s: Push.Store, index: Descriptor, bundle: Bytes, k: nat)
    requires Lawful(w) && Push.Closed(w, s) && k <= 3
    ensures Push.Closed(w, Push.Run(s, AttachSteps(w, index, bundle)[..k]))
  {
    AttachIsLeavesFirst(w, s, index, bundle);
    Push.LeavesFirstKeepsClosed(w, s, AttachSteps(w, index, bundle), k);
  }

  lemma AttachIsLeavesFirst(w: Wire, s: Push.Store, index: Descriptor, bundle: Bytes)
    requires Lawful(w)
    ensures Push.LeavesFirst(w, s, AttachSteps(w, index, bundle))
  {
    var steps := AttachSteps(w, index, bundle);
    var m := ReferrerManifest(w, index, bundle);
    Push.PutIsPresent(s, steps, 0, 2);
    Push.PutIsPresent(s, steps, 1, 2);
    assert w.decodeManifest(w.encodeManifest(m)) == Some(m);
    forall k | 0 <= k < |steps| ensures Push.Ready(w, Push.Run(s, steps[..k]), steps[k]) {
      assert k == 0 || k == 1 || k == 2;
    }
  }

  // ---------------------------------------------------------------------
  // Several signatures, one after the other

  function AttachAll(w: Wire, index: Descriptor, bundles: seq<Bytes>): seq<Push.Step>
  {
    if bundles == [] then []
    else AttachAll(w, index, bundles[..|bundles| - 1]) + AttachSteps(w, index, bundles[|bundles| - 1])
  }

  function AttachedBytes(w: Wire, index: Descriptor, bundles: seq<Bytes>): set<Bytes>
  {
    {"{}"} + (set b | b in bundles) + set b | b in bundles :: ReferrerBlob(w, index, b).data
  }

  ghost predicate AttachStepOf(w: Wire, index: Descriptor, bundles: seq<Bytes>, step: Push.Step)
  {
    exists b :: b in bundles && step in AttachSteps(w, index, b)
  }

  lemma {:induction false} AttachAllMembers(w: Wire, index: Descriptor, bundles: seq<Bytes>, step: Push.Step)
    ensures step in AttachAll(w, index, bundles) <==> AttachStepOf(w, index, bundles, step)
  {
    if bundles != [] {
      var init, last := bundles[..|bundles| - 1], bundles[|bundles| - 1];
      AttachAllMembers(w, index, init, step);
      assert bundles == init + [last];
      assert step in AttachAll(w, index, bundles) <==>
        step in AttachAll(w, index, init) || step in AttachSteps(w, index, last);
    }
  }

  lemma AttachStepsAreWellFormed(w: Wire, index: Descriptor, bundles: seq<Bytes>)
    ensures forall i :: 0 <= i < |AttachAll(w, index, bundles)| ==> AttachAll(w, index, bundles)[i].Put?
    ensures Push.WellFormedSteps(w, AttachAll(w, index, bundles))
    ensures Push.StepBytes(AttachAll(w, index, bundles)) <= AttachedBytes(w, index, bundles)
  {
    var steps := AttachAll(w, index, bundles);
    forall i | 0 <= i < |steps|
      ensures steps[i].Put? && steps[i].blob.digest == w.hash(steps[i].blob.data)
      ensures steps[i].blob.data in AttachedBytes(w, index, bundles)
    {
      AttachAllMembers(w, index, bundles, steps[i]);
      var b :| b in bundles && steps[i] in AttachSteps(w, index, b);
    }
  }

  lemma AttachedPuts(w: Wire, index: Descriptor, bundles: seq<Bytes>, b: Bytes)
    requires b in bundles
    ensures Push.Put(BundleBlob(w, b)) in AttachAll(w, index, bundles)
    ensures Push.Put(ReferrerBlob(w, index, b)) in AttachAll(w, index, bundles)
  {
    var steps := AttachSteps(w, index, b);
    assert steps[0] in steps && steps[2] in steps;
    AttachAllMembers(w, index, bundles, steps[0]);
    AttachAllMembers(w, index, bundles, steps[2]);
  }

  /** A manifest that steps have brought was put by one of them. */
  lemma {:induction false} NewManifestWasPut(s: Push.Store, steps: seq<Push.Step>, d: Digest) returns (b: Blob)
    requires d in Push.Run(s, steps).manifests && d !in s.manifests
    ensures Push.Put(b) in steps && Push.IsManifestType(b.mediaType) && b.digest == d
  {
    var init, last := steps[..|steps| - 1], steps[|steps| - 1];
    if d in Push.Run(s, init).manifests {
      b := NewManifestWasPut(s, init, d);
    } else {
      b := last.blob;
    }
  }

  // ---------------------------------------------------------------------
  // Referrers

  /** The document is a signature's manifest for the index. */
  predicate RefersTo(w: Wire, data: Bytes, index: Descriptor)
  {
    match w.decodeManifest(data)
    case None => false
    case Some(m) => m.artifactType == Some(SigstoreBundle) && m.subject.Some? && m.subject.value.digest == index.digest
  }

  predicate IsReferrer(w: Wire, s: Push.Store, index: Descriptor, d: Digest)
  {
    d in s.manifests && RefersTo(w, s.manifests[d].data, index)
  }

  predicate DescribesReferrer(w: Wire, s: Push.Store, index: Descriptor, ref: Descriptor)
  {
    IsReferrer(w, s, index, ref.digest) && ref.mediaType == ImageManifest && ref.size == |s.manifests[ref.digest].data|
  }

  /** An honest listing has a descriptor of every referrer, in any order, and of nothing else. */
  ghost predicate ListsReferrers(w: Wire, s: Push.Store, index: Descriptor, refs: seq<Descriptor>)
  {
    && (forall ref :: ref in refs ==> DescribesReferrer(w, s, index, ref))
    && forall d :: IsReferrer(w, s, index, d) ==> exists ref :: ref in refs && ref.digest == d
  }

  /**
   The document of an attached signature: of the bundle's type, about the index, over the
   bundle and an empty config.
   */
  lemma ReferrerDocument(w: Wire, index: Descriptor, b: Bytes) returns (m: Manifest)
    requires Lawful(w)
    ensures w.decodeManifest(ReferrerBlob(w, index, b).data) == Some(m)
    ensures m.mediaType == ImageManifest && m.artifactType == Some(SigstoreBundle) && m.subject == Some(index)
    ensures |m.layers| == 1 && Names(w, m.layers[0], SigstoreBundle, b) && Names(w, m.config, EMPTY_JSON, "{}")
  {
    m := ReferrerManifest(w, index, b);
    assert w.decodeManifest(w.encodeManifest(m)) == Some(m);
  }

  /** A content-addressed store, and byte strings that the hash tells apart. */
  ghost predicate Attachable(w: Wire, s: Push.Store, index: Descriptor, bundles: seq<Bytes>, bytes: set<Bytes>)
  {
    && Lawful(w) && Push.ContentAddressed(w, s) && CollisionFree(w, bytes)
    && Push.StoredBytes(s) + AttachedBytes(w, index, bundles) <= bytes
  }

  ghost predicate Fits(w: Wire, index: Descriptor, bundles: seq<Bytes>)
  {
    forall b :: b in bundles ==> |b| <= MAX_BLOB_BYTES && |ReferrerBlob(w, index, b).data| <= MAX_BLOB_BYTES
  }

  lemma AttachedContent(w: Wire, s: Push.Store, index: Descriptor, bundles: seq<Bytes>, bytes: set<Bytes>, b: Bytes)
    requires Attachable(w, s, index, bundles, bytes) && b in bundles
    ensures Push.HasContent(Push.Run(s, AttachAll(w, index, bundles)), BundleBlob(w, b))
    ensures Push.HasContent(Push.Run(s, AttachAll(w, index, bundles)), ReferrerBlob(w, index, b))
  {
    AttachStepsAreWellFormed(w, index, bundles);
    AttachedPuts(w, index, bundles, b);
    Push.PutContent(w, AttachAll(w, index, bundles), s, BundleBlob(w, b), bytes);
    Push.PutContent(w, AttachAll(w, index, bundles), s, ReferrerBlob(w, index, b), bytes);
  }

  ghost predicate ReferrerOfAny(w: Wire, index: Descriptor, bundles: seq<Bytes>, d: Digest)
  {
    exists b :: b in bundles && ReferrerBlob(w, index, b).digest == d
  }

  lemma ReferrerIsAdded(w: Wire, s: Push.Store, index: Descriptor, bundles: seq<Bytes>, bytes: set<Bytes>, b: Bytes)
    requires Attachable(w, s, index, bundles, bytes) && b in bundles
    ensures IsReferrer(w, Push.Run(s, AttachAll(w, index, bundles)), index, ReferrerBlob(w, index, b).digest)
  {
    AttachedContent(w, s, index, bundles, bytes, b);
    ReferrerRefers(w, index, b);
  }

  lemma ReferrerRefers(w: Wire, index: Descriptor, b: Bytes)
    requires Lawful(w)
    ensures RefersTo(w, ReferrerBlob(w, index, b).data, index)
  {
    assert w.decodeManifest(ReferrerBlob(w, index, b).data) == Some(ReferrerManifest(w, index, b));
  }

  lemma NewManifestIsReferrer(w: Wire, s: Push.Store, index: Descriptor, bundles: seq<Bytes>, d: Digest)
    requires d in Push.Run(s, AttachAll(w, index, bundles)).manifests && d !in s.manifests
    ensures ReferrerOfAny(w, index, bundles, d)
  {
    var x := NewManifestWasPut(s, AttachAll(w, index, bundles), d);
    AttachAllMembers(w, index, bundles, Push.Put(x));
    var b :| b in bundles && Push.Put(x) in AttachSteps(w, index, b);
    assert x == ReferrerBlob(w, index, b);
  }

  /**
   Attaching is additive: afterwards the referrers of the index are those from
   before and one for each bundle attached.
   */
  lemma AttachAddsReferrers(
      w: Wire, s: Push.Store, index: Descriptor, bundles: seq<Bytes>, bytes: set<Bytes>, d: Digest)
    requires Attachable(w, s, index, bundles, bytes)
    ensures IsReferrer(w, Push.Run(s, AttachAll(w, index, bundles)), index, d) <==>
      IsReferrer(w, s, index, d) || ReferrerOfAny(w, index, bundles, d)
  {
    var t := Push.Run(s, AttachAll(w, index, bundles));
    AttachOnlyPuts(w, s, index, bundles);
    if ReferrerOfAny(w, index, bundles, d) {
      var b :| b in bundles && ReferrerBlob(w, index, b).digest == d;
      ReferrerIsAdded(w, s, index, bundles, bytes, b);
    } else if d in t.manifests && d !in s.manifests {
      NewManifestIsReferrer(w, s, index, bundles, d);
    }
  }

  lemma AttachOnlyPuts(w: Wire, s: Push.Store, index: Descriptor, bundles: seq<Bytes>)
    ensures Keeps(s, Push.Run(s, AttachAll(w, index, bundles)))
  {
    AttachStepsAreWellFormed(w, index, bundles);
    PutsKeep(s, AttachAll(w, index, bundles));
  }

  // ---------------------------------------------------------------------
  // Discovery is the inverse

  /** An honest registry serves the store after the attaching and lists its at most 32 referrers of the index. */
  ghost predicate Discoverable(
    w: Wire, s: Push.Store, index: Descriptor, bundles: seq<Bytes>, bytes: set<Bytes>, src: Source,
    refs: seq<Descriptor>)
  {
    && Attachable(w, s, index, bundles, bytes) && Fits(w, index, bundles)
    && Pipeline.Honest(src, Push.Run(s, AttachAll(w, index, bundles)))
    && ListsReferrers(w, Push.Run(s, AttachAll(w, index, bundles)), index, refs) && |refs| <= MAX_SIGNATURE_REFERRERS
  }

  /** What is served for an attached bundle. */
  lemma AttachedIsServed(
      w: Wire, s: Push.Store, index: Descriptor, bundles: seq<Bytes>, bytes: set<Bytes>, b: Bytes, src: Source,
      ref: Descriptor)
    requires Attachable(w, s, index, bundles, bytes) && b in bundles
    requires Pipeline.Honest(src, Push.Run(s, AttachAll(w, index, bundles)))
    requires DescribesReferrer(w, Push.Run(s, AttachAll(w, index, bundles)), index, ref)
    requires ref.digest == ReferrerBlob(w, index, b).digest
    ensures ref.size == |ReferrerBlob(w, index, b).data|
    ensures forall n: nat :: src(n, ref) == Stream(ReferrerBlob(w, index, b).data, false)
    ensures forall n: nat :: src(n, BundleBlob(w, b).Descriptor()) == Stream(b, false)
  {
    AttachedContent(w, s, index, bundles, bytes, b);
  }

  lemma ServedIsUsable(w: Wire, index: Descriptor, b: Bytes, src: Source, n: nat, ref: Descriptor)
    requires Lawful(w) && |b| <= MAX_BLOB_BYTES && ref.size == |ReferrerBlob(w, index, b).data| <= MAX_BLOB_BYTES
    requires src(n, ref) == Stream(ReferrerBlob(w, index, b).data, false)
    requires src(n + 1, BundleBlob(w, b).Descriptor()) == Stream(b, false)
    ensures Inspect(w, src, n, ref) == Usable(b)
  {
    var m := ReferrerManifest(w, index, b);
    assert w.decodeManifest(w.encodeManifest(m)) == Some(m);
    assert FirstBundleLayer(m.layers) == Some(m.layers[0]);
  }

  /** A listed referrer of an attached bundle turns out to hold that bundle. */
  lemma AttachedIsUsable(
      w: Wire, s: Push.Store, index: Descriptor, bundles: seq<Bytes>, bytes: set<Bytes>, b: Bytes,
      src: Source, n: nat, refs: seq<Descriptor>, ref: Descriptor)
    requires Discoverable(w, s, index, bundles, bytes, src, refs) && b in bundles && ref in refs
    requires ref.digest == ReferrerBlob(w, index, b).digest
    ensures Inspect(w, src, n, ref) == Usable(b)
  {
    AttachedIsServed(w, s, index, bundles, bytes, b, src, ref);
    ServedIsUsable(w, index, b, src, n, ref);
  }

  /** Every attached bundle is listed. */
  lemma AttachedIsListed(
      w: Wire, s: Push.Store, index: Descriptor, bundles: seq<Bytes>, bytes: set<Bytes>, b: Bytes, src: Source,
      refs: seq<Descriptor>)
      returns (i: nat)
    requires Discoverable(w, s, index, bundles, bytes, src, refs) && b in bundles
    ensures i < |refs| && refs[i].digest == ReferrerBlob(w, index, b).digest
  {
    ReferrerIsAdded(w, s, index, bundles, bytes, b);
    var ref :| ref in refs && ref.digest == ReferrerBlob(w, index, b).digest;
    i :| 0 <= i < |refs| && refs[i] == ref;
  }

  lemma AttachedIsInspected(
      w: Wire, s: Push.Store, index: Descriptor, bundles: seq<Bytes>, bytes: set<Bytes>, b: Bytes,
      src: Source, n: nat, refs: seq<Descriptor>) returns (i: nat)
    requires Discoverable(w, s, index, bundles, bytes, src, refs) && b in bundles
    ensures i < |refs| && Inspect(w, src, n + 2 * i, refs[i]) == Usable(b)
  {
    i := AttachedIsListed(w, s, index, bundles, bytes, b, src, refs);
    AttachedIsUsable(w, s, index, bundles, bytes, b, src, n + 2 * i, refs, refs[i]);
  }

  lemma UsableIsDiscovered(w: Wire, src: Source, n: nat, refs: seq<Descriptor>, i: nat, b: Bytes)
    requires |refs| <= MAX_SIGNATURE_REFERRERS && i < |refs| && Inspect(w, src, n + 2 * i, refs[i]) == Usable(b)
    ensures Discover(w, src, n, Listed(refs)).Ok?
    ensures b in Discover(w, src, n, Listed(refs)).value.bundles && !Discover(w, src, n, Listed(refs)).value.truncated
  {
    var fs := Findings(w, src, n, refs);
    assert fs[i] == Usable(b) && fs[i] in fs;
    BundlesMembers(fs, b);
  }

  /** With at most 32 referrers every attached bundle is discovered, whatever the others hold. */
  lemma AttachedIsDiscovered(
      w: Wire, s: Push.Store, index: Descriptor, bundles: seq<Bytes>, bytes: set<Bytes>, b: Bytes,
      src: Source, n: nat, refs: seq<Descriptor>)
    requires Discoverable(w, s, index, bundles, bytes, src, refs) && b in bundles
    ensures Discover(w, src, n, Listed(refs)).Ok?
    ensures b in Discover(w, src, n, Listed(refs)).value.bundles && !Discover(w, src, n, Listed(refs)).value.truncated
  {
    var i := AttachedIsInspected(w, s, index, bundles, bytes, b, src, n, refs);
    UsableIsDiscovered(w, src, n, refs, i, b);
  }

  predicate UsableIn(x: Finding, bundles: seq<Bytes>)
  {
    x.Usable? && x.bundle in bundles
  }

  /** What is listed was attached, when there was no referrer before. */
  lemma ListedWasAttached(
      w: Wire, s: Push.Store, index: Descriptor, bundles: seq<Bytes>, bytes: set<Bytes>, src: Source, n: nat,
      refs: seq<Descriptor>, i: nat)
    requires Discoverable(w, s, index, bundles, bytes, src, refs) && i < |refs|
    requires !IsReferrer(w, s, index, refs[i].digest)
    ensures UsableIn(Inspect(w, src, n, refs[i]), bundles)
  {
    AttachAddsReferrers(w, s, index, bundles, bytes, refs[i].digest);
    assert refs[i] in refs;
    var b :| b in bundles && ReferrerBlob(w, index, b).digest == refs[i].digest;
    AttachedIsUsable(w, s, index, bundles, bytes, b, src, n, refs, refs[i]);
  }

  /** What discovery makes of at most 32 findings of which none is broken. */
  lemma DiscoverSmall(w: Wire, src: Source, n: nat, refs: seq<Descriptor>)
    requires |refs| <= MAX_SIGNATURE_REFERRERS && Broken !in Findings(w, src, n, refs)
    ensures Discover(w, src, n, Listed(refs)) == Ok(Discovery(Bundles(Findings(w, src, n, refs)), false))
  {
    assert Inspected(refs) == refs;
  }

  /** Findings that are all usable are discovered as they are. */
  lemma AllUsableAreDiscovered(w: Wire, src: Source, n: nat, refs: seq<Descriptor>, bundles: seq<Bytes>)
    requires |refs| <= MAX_SIGNATURE_REFERRERS
    requires forall i :: 0 <= i < |refs| ==> UsableIn(Inspect(w, src, n + 2 * i, refs[i]), bundles)
    ensures Discover(w, src, n, Listed(refs)).Ok? && !Discover(w, src, n, Listed(refs)).value.truncated
    ensures forall b :: b in Discover(w, src, n, Listed(refs)).value.bundles ==> b in bundles
  {
    var fs := Findings(w, src, n, refs);
    forall x | x in fs ensures UsableIn(x, bundles) {
      var i :| 0 <= i < |fs| && fs[i] == x;
    }
    AllUsable(fs, bundles);
    DiscoverSmall(w, src, n, refs);
  }

  lemma AllUsable(fs: seq<Finding>, bundles: seq<Bytes>)
    requires forall x :: x in fs ==> UsableIn(x, bundles)
    ensures Broken !in fs && forall b :: b in Bundles(fs) ==> b in bundles
  {
    forall b | b in Bundles(fs) ensures b in bundles {
      BundlesMembers(fs, b);
    }
  }

  /**
   Discovery is the inverse of attaching: from an index without referrers, any
   bundles attached in any number of runs are found, and nothing else is.
   */
  lemma DiscoveryInvertsAttaching(
      w: Wire, s: Push.Store, index: Descriptor, bundles: seq<Bytes>, bytes: set<Bytes>,
      src: Source, n: nat, refs: seq<Descriptor>)
    requires Discoverable(w, s, index, bundles, bytes, src, refs)
    requires forall d :: !IsReferrer(w, s, index, d)
    ensures Discover(w, src, n, Listed(refs)).Ok? && !Discover(w, src, n, Listed(refs)).value.truncated
    ensures forall b :: b in Discover(w, src, n, Listed(refs)).value.bundles <==> b in bundles
  {
    forall i | 0 <= i < |refs| ensures UsableIn(Inspect(w, src, n + 2 * i, refs[i]), bundles) {
      ListedWasAttached(w, s, index, bundles, bytes, src, n + 2 * i, refs, i);
    }
    AllUsableAreDiscovered(w, src, n, refs, bundles);
    forall b | b in bundles ensures b in Discover(w, src, n, Listed(refs)).value.bundles {
      AttachedIsDiscovered(w, s, index, bundles, bytes, b, src, n, refs);
    }
  }

  // ---------------------------------------------------------------------
  // Publishing, signing and installing

  /** The index of a publication, the store after pushing it, and after attaching signatures too. */
  function IndexOf(w: Wire, p: Params, files: Files): Descriptor
  {
    Assembled(w, p, files).index.Descriptor()
  }

  function Pushed(w: Wire, p: Params, files: Files, s: Push.Store): Push.Store
  {
    Push.Run(s, Push.Steps(Assembled(w, p, files)))
  }

  function Signed(w: Wire, p: Params, files: Files, s: Push.Store, bundles: seq<Bytes>): Push.Store
  {
    Push.Run(Pushed(w, p, files, s), AttachAll(w, IndexOf(w, p, files), bundles))
  }

  /** What the registry is asked to be, and how much the hash must tell apart. */
  ghost predicate SignedAndServed(
    w: Wire, p: Params, files: Files, s: Push.Store, bundles: seq<Bytes>, bytes: set<Bytes>,
    registry: Registry, refs: seq<Descriptor>)
  {
    && Lawful(w) && Push.ContentAddressed(w, s) && p.binaries != [] && CollisionFree(w, bytes)
    && Push.StoredBytes(s) + Pipeline.PublishedBytes(w, p, files) +
      AttachedBytes(w, IndexOf(w, p, files), bundles) <= bytes
    && Fits(w, IndexOf(w, p, files), bundles)
    && Pipeline.Serves(registry, Signed(w, p, files, s, bundles), p.version)
    && registry.listing(IndexOf(w, p, files)) == Listed(refs) && |refs| <= MAX_SIGNATURE_REFERRERS
    && ListsReferrers(w, Signed(w, p, files, s, bundles), IndexOf(w, p, files), refs)
  }

  lemma SignedIsDiscoverable(
      w: Wire, p: Params, files: Files, s: Push.Store, bundles: seq<Bytes>, bytes: set<Bytes>, registry: Registry,
      refs: seq<Descriptor>)
    requires SignedAndServed(w, p, files, s, bundles, bytes, registry, refs)
    ensures Discoverable(w, Pushed(w, p, files, s), IndexOf(w, p, files), bundles, bytes, registry.source, refs)
  {
    PushedIsAttachable(w, p, files, s, bundles, bytes);
  }

  lemma PushedIsAttachable(w: Wire, p: Params, files: Files, s: Push.Store, bundles: seq<Bytes>, bytes: set<Bytes>)
    requires Lawful(w) && Push.ContentAddressed(w, s) && CollisionFree(w, bytes)
    requires Push.StoredBytes(s) + Pipeline.PublishedBytes(w, p, files) +
      AttachedBytes(w, IndexOf(w, p, files), bundles) <= bytes
    ensures Attachable(w, Pushed(w, p, files, s), IndexOf(w, p, files), bundles, bytes)
  {
    var idx := Assembled(w, p, files);
    Push.AssembledIsCoherent(w, p, files);
    Push.CoherentStepsAreWellFormed(w, idx);
    Push.RunHolds(w, s, Push.Steps(idx));
    Pipeline.AssembledBytesArePublished(w, p, files);
  }

  /** A source honest about a store is honest about what was there before. */
  lemma HonestBefore(src: Source, s: Push.Store, t: Push.Store)
    requires Keeps(s, t) && Pipeline.Honest(src, t)
    ensures Pipeline.Honest(src, s)
  {
  }

  lemma ServedBefore(w: Wire, p: Params, files: Files, s: Push.Store, bundles: seq<Bytes>, registry: Registry)
    requires Pipeline.Serves(registry, Signed(w, p, files, s, bundles), p.version)
    ensures Pipeline.Serves(registry, Pushed(w, p, files, s), p.version)
  {
    AttachOnlyPuts(w, Pushed(w, p, files, s), IndexOf(w, p, files), bundles);
    HonestBefore(registry.source, Pushed(w, p, files, s), Signed(w, p, files, s, bundles));
  }

  predicate Proves(sig: Sigstore, pin: string, digest: Digest, bundles: seq<Bytes>, b: Bytes)
  {
    b in bundles && Vouches(sig, pin, digest, b)
  }

  /** The host's binary, under a signer that one of the bundles proves. */
  ghost predicate InstalledUnderSome(
    w: Wire, sig: Sigstore, host: HostPlatform, p: Params, files: Files, bundles: seq<Bytes>, pin: string,
    v: VerifiedPlugin)
  {
    var binary, digest := Pipeline.HostBinary(host, p.binaries), IndexOf(w, p, files).digest;
    binary.Some? && exists b ::
      && Proves(sig, pin, digest, bundles, b)
      && v == Pipeline.InstalledPlugin(w, p, files, host, binary.value, sig(b, digest).value)
  }

  /** The signer that is selected is one that some bundle proves. */
  lemma SelectedIsProved(sig: Sigstore, pin: string, digest: Digest, bundles: seq<Bytes>)
    ensures SelectSigner(sig, pin, digest, bundles).Some? <==> exists b :: Proves(sig, pin, digest, bundles, b)
    ensures SelectSigner(sig, pin, digest, bundles).Some? ==> exists b ::
      Proves(sig, pin, digest, bundles, b) && sig(b, digest) == SelectSigner(sig, pin, digest, bundles)
  {
    NoSignerIff(sig, pin, digest, bundles);
    if SelectSigner(sig, pin, digest, bundles).Some? {
      var k := FirstOfSelected(sig, pin, digest, bundles);
      assert Proves(sig, pin, digest, bundles, bundles[k]);
    } else if b :| Proves(sig, pin, digest, bundles, b) {
      assert false;
    }
  }

  /** An install is decided by the signer that was selected, if any, and the publication. */
  ghost predicate Decided(
    w: Wire, host: HostPlatform, p: Params, files: Files, selected: Option<Identity>,
    install: Result<VerifiedPlugin, Pipeline.InstallError>)
  {
    && (install.Ok? <==> selected.Some? && Pipeline.Installable(w, p, files, host))
    && (install.Ok? ==> install == Ok(Pipeline.InstalledPlugin(
          w, p, files, host, Pipeline.HostBinary(host, p.binaries).value, selected.value)))
  }

  lemma UnselectedIsRejected(
      w: Wire, sig: Sigstore, host: HostPlatform, registry: Registry, coordinate: string, version: string, pin: string,
      f: FetchedIndex)
    requires PullIndex(w, registry, coordinate, version) == Ok(f) || PullIndex(w, registry, coordinate, version).Err?
    requires SelectSigner(sig, pin, f.indexDescriptor.digest, f.bundles).None?
    ensures Pipeline.Install(w, sig, host, registry, coordinate, version, pin).Err?
  {
  }

  /** What was discovered decides the install, whatever it is. */
  lemma InstallOfDiscovered(
      w: Wire, sig: Sigstore, host: HostPlatform, p: Params, files: Files, s: Push.Store, bundles: seq<Bytes>,
      bytes: set<Bytes>, registry: Registry, refs: seq<Descriptor>, pin: string, found: Discovery)
    requires SignedAndServed(w, p, files, s, bundles, bytes, registry, refs)
    requires Discover(w, registry.source, 1, Listed(refs)) == Ok(found)
    ensures Decided(w, host, p, files, SelectSigner(sig, pin, IndexOf(w, p, files).digest, found.bundles),
      Pipeline.Install(w, sig, host, registry, p.coordinate, p.version, pin))
  {
    var selected := SelectSigner(sig, pin, IndexOf(w, p, files).digest, found.bundles);
    ServedBefore(w, p, files, s, bundles, registry);
    if selected.Some? {
      Pipeline.SelectedPluginInstalls(w, sig, host, p, files, s, registry, pin, found, selected.value);
    } else {
      Pipeline.PulledIndex(w, p, files, s, registry, found);
      var idx := Assembled(w, p, files);
      UnselectedIsRejected(w, sig, host, registry, p.coordinate, p.version, pin,
        FetchedIndex(p.coordinate, p.version, idx.index.Descriptor(), idx.index.data, found.bundles, found.truncated));
    }
  }

  /** A selection among discovered bundles that are the attached ones. */
  lemma DecidedByBundles(
      w: Wire, sig: Sigstore, host: HostPlatform, p: Params, files: Files, bundles: seq<Bytes>, pin: string,
      found: seq<Bytes>, install: Result<VerifiedPlugin, Pipeline.InstallError>)
    requires Decided(w, host, p, files, SelectSigner(sig, pin, IndexOf(w, p, files).digest, found), install)
    requires forall b :: b in found <==> b in bundles
    ensures install.Ok? <==>
      Pipeline.Installable(w, p, files, host) && exists b :: Proves(sig, pin, IndexOf(w, p, files).digest, bundles, b)
    ensures install.Ok? ==> InstalledUnderSome(w, sig, host, p, files, bundles, pin, install.value)
  {
    var digest := IndexOf(w, p, files).digest;
    SelectedIsProved(sig, pin, digest, found);
    forall b ensures Proves(sig, pin, digest, found, b) <==> Proves(sig, pin, digest, bundles, b) {
    }
  }

  /**
   Publish, sign and install. After a push and any number of attached bundles, at
   most 32 referrers in all, an honest registry and one of the bundles accepted
   are enough: whatever the other referrers hold and in whatever order they are
   listed, the install succeeds exactly when the publication is installable.
   */
  lemma SignedPluginInstalls(
      w: Wire, sig: Sigstore, host: HostPlatform, p: Params, files: Files, s: Push.Store, bundles: seq<Bytes>,
      bytes: set<Bytes>, registry: Registry, refs: seq<Descriptor>, pin: string, b: Bytes)
      returns (signer: Identity, proof: Bytes)
    requires SignedAndServed(w, p, files, s, bundles, bytes, registry, refs)
    requires Proves(sig, pin, IndexOf(w, p, files).digest, bundles, b)
    ensures Vouches(sig, pin, IndexOf(w, p, files).digest, proof) &&
      sig(proof, IndexOf(w, p, files).digest) == Some(signer)
    ensures Pipeline.Install(w, sig, host, registry, p.coordinate, p.version, pin).Ok? <==>
      Pipeline.Installable(w, p, files, host)
    ensures Pipeline.Installable(w, p, files, host) ==>
      Pipeline.Install(w, sig, host, registry, p.coordinate, p.version, pin) ==
        Ok(Pipeline.InstalledPlugin(w, p, files, host, Pipeline.HostBinary(host, p.binaries).value, signer))
  {
    var index := IndexOf(w, p, files);
    SignedIsDiscoverable(w, p, files, s, bundles, bytes, registry, refs);
    AttachedIsDiscovered(w, Pushed(w, p, files, s), index, bundles, bytes, b, registry.source, 1, refs);
    var found := Discover(w, registry.source, 1, Listed(refs)).value;
    InstallOfDiscovered(w, sig, host, p, files, s, bundles, bytes, registry, refs, pin, found);
    NoSignerIff(sig, pin, index.digest, found.bundles);
    var k := FirstOfSelected(sig, pin, index.digest, found.bundles);
    signer, proof := SelectSigner(sig, pin, index.digest, found.bundles).value, found.bundles[k];
  }

  /**
   And when nothing referred to the index before: the install succeeds if and
   only if the publication is installable and some attached bundle is accepted,
   and it records the signer that an attached bundle proves.
   */
  lemma SignedPluginInstallsIff(
      w: Wire, sig: Sigstore, host: HostPlatform, p: Params, files: Files, s: Push.Store, bundles: seq<Bytes>,
      bytes: set<Bytes>, registry: Registry, refs: seq<Descriptor>, pin: string)
    requires SignedAndServed(w, p, files, s, bundles, bytes, registry, refs)
    requires forall d :: !IsReferrer(w, Pushed(w, p, files, s), IndexOf(w, p, files), d)
    ensures Pipeline.Install(w, sig, host, registry, p.coordinate, p.version, pin).Ok? <==>
      Pipeline.Installable(w, p, files, host) && exists b :: Proves(sig, pin, IndexOf(w, p, files).digest, bundles, b)
    ensures Pipeline.Install(w, sig, host, registry, p.coordinate, p.version, pin).Ok? ==>
      InstalledUnderSome(w, sig, host, p, files, bundles, pin,
        Pipeline.Install(w, sig, host, registry, p.coordinate, p.version, pin).value)
  {
    var index := IndexOf(w, p, files);
    SignedIsDiscoverable(w, p, files, s, bundles, bytes, registry, refs);
    DiscoveryInvertsAttaching(w, Pushed(w, p, files, s), index, bundles, bytes, registry.source, 1, refs);
    var found := Discover(w, registry.source, 1, Listed(refs)).value;
    InstallOfDiscovered(w, sig, host, p, files, s, bundles, bytes, registry, refs, pin, found);
    DecidedByBundles(w, sig, host, p, files, bundles, pin, found.bundles,
      Pipeline.Install(w, sig, host, registry, p.coordinate, p.version, pin));
  }

  // ---------------------------------------------------------------------
  // Such registries exist

  const NOTHING_STORED := Push.Store(map[], map[], map[])

  function ServedFrom(t: Push.Store): Source
  {
    (n: nat, d: Descriptor) =>
      if Push.IsManifestType(d.mediaType) then
        if d.digest in t.manifests then Stream(t.manifests[d.digest].data, false) else Stream("", true)
      else if d.digest in t.blobs then Stream(t.blobs[d.digest], false) else Stream("", true)
  }

  /** A descriptor for each attached signature. */
  function ReferrersOf(w: Wire, index: Descriptor, bundles: seq<Bytes>): (r: seq<Descriptor>)
    ensures |r| == |bundles|
  {
    seq(|bundles|, i requires 0 <= i < |bundles| => ReferrerBlob(w, index, bundles[i]).Descriptor())
  }

  lemma PublishedContent(w: Wire, p: Params, files: Files, bytes: set<Bytes>, x: Blob)
    requires Lawful(w) && CollisionFree(w, bytes) && Pipeline.PublishedBytes(w, p, files) <= bytes
    requires Push.Put(x) in Push.Steps(Assembled(w, p, files))
    ensures Push.HasContent(Pushed(w, p, files, NOTHING_STORED), x)
  {
    var idx := Assembled(w, p, files);
    Push.AssembledIsCoherent(w, p, files);
    Push.CoherentStepsAreWellFormed(w, idx);
    Pipeline.AssembledBytesArePublished(w, p, files);
    Push.PutContent(w, Push.Steps(idx), NOTHING_STORED, x, bytes);
  }

  lemma PutIsPublished(w: Wire, p: Params, files: Files, x: Blob)
    requires Lawful(w) && Push.Put(x) in Push.Steps(Assembled(w, p, files)) && Push.IsManifestType(x.mediaType)
    ensures x in Assembled(w, p, files).manifests || x == Assembled(w, p, files).index
  {
    Push.AssembledIsCoherent(w, p, files);
  }

  lemma ChildHasNoSubject(w: Wire, p: Params, files: Files, x: Blob)
    requires Lawful(w) && x in Assembled(w, p, files).manifests
    ensures w.decodeManifest(x.data).Some? && w.decodeManifest(x.data).value.subject == None
  {
    var i :| 0 <= i < |p.binaries| && Assembled(w, p, files).manifests[i] == x;
    assert x == ManifestBlob(w, p, files, p.binaries[i]);
  }

  /** A publication's own manifests refer to nothing, when an index is not read as a manifest. */
  lemma PublicationRefersToNothing(w: Wire, p: Params, files: Files, bytes: set<Bytes>, d: Digest)
    requires Lawful(w) && CollisionFree(w, bytes) && Pipeline.PublishedBytes(w, p, files) <= bytes
    requires w.decodeManifest(Assembled(w, p, files).index.data).None?
    ensures !IsReferrer(w, Pushed(w, p, files, NOTHING_STORED), IndexOf(w, p, files), d)
  {
    if d in Pushed(w, p, files, NOTHING_STORED).manifests {
      var idx := Assembled(w, p, files);
      var x := NewManifestWasPut(NOTHING_STORED, Push.Steps(idx), d);
      PublishedContent(w, p, files, bytes, x);
      PutIsPublished(w, p, files, x);
      if x in idx.manifests {
        ChildHasNoSubject(w, p, files, x);
      }
    }
  }

  /** The listing of what was attached is honest. */
  lemma AttachedAreTheReferrers(w: Wire, s: Push.Store, index: Descriptor, bundles: seq<Bytes>, bytes: set<Bytes>)
    requires Attachable(w, s, index, bundles, bytes) && forall d :: !IsReferrer(w, s, index, d)
    ensures ListsReferrers(w, Push.Run(s, AttachAll(w, index, bundles)), index, ReferrersOf(w, index, bundles))
  {
    var refs, t := ReferrersOf(w, index, bundles), Push.Run(s, AttachAll(w, index, bundles));
    forall ref | ref in refs ensures DescribesReferrer(w, t, index, ref) {
      var i :| 0 <= i < |refs| && refs[i] == ref;
      ReferrerIsAdded(w, s, index, bundles, bytes, bundles[i]);
      AttachedContent(w, s, index, bundles, bytes, bundles[i]);
    }
    forall d | IsReferrer(w, t, index, d) ensures exists ref :: ref in refs && ref.digest == d {
      AttachAddsReferrers(w, s, index, bundles, bytes, d);
      var b :| b in bundles && ReferrerBlob(w, index, b).digest == d;
      var i :| 0 <= i < |bundles| && bundles[i] == b;
      assert refs[i] in refs && refs[i].digest == d;
    }
  }

  /** The repository after the signing serves the tag, and lists what was attached. */
  function ServedBy(w: Wire, p: Params, files: Files, bundles: seq<Bytes>): Registry
  {
    var index, refs := IndexOf(w, p, files), ReferrersOf(w, IndexOf(w, p, files), bundles);
    Registry(_ => Some(index), ServedFrom(Signed(w, p, files, NOTHING_STORED, bundles)), _ => Listed(refs))
  }

  lemma NothingIsAddressed(w: Wire)
    ensures Push.ContentAddressed(w, NOTHING_STORED) && Push.StoredBytes(NOTHING_STORED) == {}
  {
  }

  lemma SignedIsServed(w: Wire, p: Params, files: Files, bundles: seq<Bytes>)
    requires Lawful(w)
    ensures Pipeline.Serves(
      ServedBy(w, p, files, bundles), Signed(w, p, files, NOTHING_STORED, bundles), p.version)
    ensures ServedBy(w, p, files, bundles).listing(IndexOf(w, p, files)) ==
      Listed(ReferrersOf(w, IndexOf(w, p, files), bundles))
  {
    Pipeline.TagAfterPush(w, p, files, NOTHING_STORED);
    AttachOnlyPuts(w, Pushed(w, p, files, NOTHING_STORED), IndexOf(w, p, files), bundles);
  }

  lemma SignedIsListed(w: Wire, p: Params, files: Files, bundles: seq<Bytes>, bytes: set<Bytes>)
    requires Lawful(w) && CollisionFree(w, bytes) && w.decodeManifest(Assembled(w, p, files).index.data).None?
    requires Pipeline.PublishedBytes(w, p, files) + AttachedBytes(w, IndexOf(w, p, files), bundles) <= bytes
    ensures forall d :: !IsReferrer(w, Pushed(w, p, files, NOTHING_STORED), IndexOf(w, p, files), d)
    ensures ListsReferrers(w, Signed(w, p, files, NOTHING_STORED, bundles), IndexOf(w, p, files),
      ReferrersOf(w, IndexOf(w, p, files), bundles))
  {
    forall d ensures !IsReferrer(w, Pushed(w, p, files, NOTHING_STORED), IndexOf(w, p, files), d) {
      PublicationRefersToNothing(w, p, files, bytes, d);
    }
    PushedIsAttachable(w, p, files, NOTHING_STORED, bundles, bytes);
    AttachedAreTheReferrers(w, Pushed(w, p, files, NOTHING_STORED), IndexOf(w, p, files), bundles, bytes);
  }

  /**
   What the install after signing asks for can be had: every publication with at
   most 32 signatures that fit is signed and served by some registry, from an empty
   one on, and nothing referred to it before. All it takes is an encoding that does
   not read an index as a manifest, as the concrete one does not.
   */
  lemma SignedCanBeServed(w: Wire, p: Params, files: Files, bundles: seq<Bytes>, bytes: set<Bytes>)
      returns (registry: Registry, refs: seq<Descriptor>)
    requires Lawful(w) && p.binaries != [] && CollisionFree(w, bytes)
    requires Pipeline.PublishedBytes(w, p, files) + AttachedBytes(w, IndexOf(w, p, files), bundles) <= bytes
    requires w.decodeManifest(Assembled(w, p, files).index.data).None?
    requires Fits(w, IndexOf(w, p, files), bundles) && |bundles| <= MAX_SIGNATURE_REFERRERS
    ensures SignedAndServed(w, p, files, NOTHING_STORED, bundles, bytes, registry, refs)
    ensures forall d :: !IsReferrer(w, Pushed(w, p, files, NOTHING_STORED), IndexOf(w, p, files), d)
  {
    registry, refs := ServedBy(w, p, files, bundles), ReferrersOf(w, IndexOf(w, p, files), bundles);
    SignedIsServed(w, p, files, bundles);
    SignedIsListed(w, p, files, bundles, bytes);
    NothingIsAddressed(w);
  }
}
