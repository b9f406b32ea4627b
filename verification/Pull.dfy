/**
 Reading from an untrusted registry: `FetchBytes`, signature discovery and
 `PullIndex` (internal/oci/pull.go:24-282).
 */
module Pull {
  import opened Wrappers
  import opened Codec

  const MAX_BLOB_BYTES: nat := 0x100_0000     // 16 << 20
  const MAX_BINARY_BYTES: nat := 0x1F40_0000  // 500 << 20
  const MAX_SIGNATURE_REFERRERS: nat := 32

  /** What a registry answers to a fetch: a refusal, or a stream that may break off after its content. */
  datatype Answer = Refusal | Stream(content: Bytes, broken: bool)

  /** A registry under nobody's control: its answer may depend on how many requests came before. */
  type Source = (nat, Descriptor) -> Answer

  datatype FetchError = TooLarge | Transport

  /** At most `limit + 1` bytes are read, so that an over-long stream is an error and never cut short. */
  function FetchBytes(src: Source, n: nat, d: Descriptor, limit: nat): (r: Result<Bytes, FetchError>)
    ensures r.Ok? <==> d.size <= limit && src(n, d).Stream? && !src(n, d).broken && |src(n, d).content| <= limit
    ensures r.Ok? ==> r.value == src(n, d).content
    ensures r == Err(TooLarge) <==> d.size > limit || (src(n, d).Stream? && |src(n, d).content| > limit)
  {
    if d.size > limit then Err(TooLarge)
    else match src(n, d)
      case Refusal => Err(Transport)
      case Stream(content, broken) =>
        var data := if |content| > limit + 1 then content[..limit + 1] else content;
        if broken && |content| <= limit then Err(Transport)
        else if |data| > limit then Err(TooLarge)
        else Ok(data)
  }

  // ---------------------------------------------------------------------
  // Signature discovery

  /** What one referrer turned out to hold. */
  datatype Finding = Usable(bundle: Bytes) | Broken | NoBundle

  function FirstBundleLayer(layers: seq<Descriptor>): Option<Descriptor>
  {
    if layers == [] then None
    else if layers[0].mediaType == SigstoreBundle then Some(layers[0])
    else FirstBundleLayer(layers[1..])
  }

  /** Requests `n` (the manifest) and `n + 1` (its first bundle layer). */
  function Inspect(w: Wire, src: Source, n: nat, ref: Descriptor): Finding
  {
    match FetchBytes(src, n, ref, MAX_BLOB_BYTES)
    case Err(_) => Broken
    case Ok(bytes) =>
      match w.decodeManifest(bytes)
      case None => Broken
      case Some(m) =>
        match FirstBundleLayer(m.layers)
        case None => NoBundle
        case Some(layer) =>
          match FetchBytes(src, n + 1, layer, MAX_BLOB_BYTES)
          case Err(_) => Broken
          case Ok(bundle) => Usable(bundle)
  }

  /** The inner loop over the layers stops at the first bundle layer. */
  method InspectReferrer(w: Wire, src: Source, n: nat, ref: Descriptor) returns (r: Finding)
    ensures r == Inspect(w, src, n, ref)
  {
    var fetched := FetchBytes(src, n, ref, MAX_BLOB_BYTES);
    if fetched.Err? {
      return Broken;
    }
    var parsed := w.decodeManifest(fetched.value);
    if parsed.None? {
      return Broken;
    }
    var layers := parsed.value.layers;
    for i := 0 to |layers|
      invariant FirstBundleLayer(layers) == FirstBundleLayer(layers[i..])
    {
      if layers[i].mediaType == SigstoreBundle {
        var data := FetchBytes(src, n + 1, layers[i], MAX_BLOB_BYTES);
        return if data.Err? then Broken else Usable(data.value);
      }
    }
    r := NoBundle;
  }

  /** Layer `k` holds a bundle and none before it does. */
  ghost predicate FirstBundle(layers: seq<Descriptor>, k: int)
  {
    && 0 <= k < |layers| && layers[k].mediaType == SigstoreBundle
    && forall i :: 0 <= i < k ==> layers[i].mediaType != SigstoreBundle
  }

  ghost predicate NoneIsBundle(layers: seq<Descriptor>)
  {
    forall i :: 0 <= i < |layers| ==> layers[i].mediaType != SigstoreBundle
  }

  lemma {:induction false} FirstBundleLayerIs(layers: seq<Descriptor>)
    ensures NoneIsBundle(layers) ==> FirstBundleLayer(layers) == None
    ensures forall k :: FirstBundle(layers, k) ==> FirstBundleLayer(layers) == Some(layers[k])
  {
    if layers != [] && layers[0].mediaType != SigstoreBundle {
      var rest := layers[1..];
      FirstBundleLayerIs(rest);
      assert forall i :: 0 < i < |layers| ==> layers[i] == rest[i - 1];
      forall k | FirstBundle(layers, k) ensures FirstBundle(rest, k - 1) {
      }
    }
  }

  /**
   What one referrer is found to hold: broken when its manifest cannot be fetched
   or read, or the first bundle layer cannot be fetched; nothing without such a
   layer; and otherwise that layer's content.
   */
  lemma InspectMeaning(w: Wire, src: Source, n: nat, ref: Descriptor)
    ensures FetchBytes(src, n, ref, MAX_BLOB_BYTES).Err? ==> Inspect(w, src, n, ref) == Broken
    ensures FetchBytes(src, n, ref, MAX_BLOB_BYTES).Ok? ==>
      match w.decodeManifest(FetchBytes(src, n, ref, MAX_BLOB_BYTES).value)
      case None => Inspect(w, src, n, ref) == Broken
      case Some(m) =>
        && (NoneIsBundle(m.layers) ==> Inspect(w, src, n, ref) == NoBundle)
        && forall k :: FirstBundle(m.layers, k) ==>
             match FetchBytes(src, n + 1, m.layers[k], MAX_BLOB_BYTES)
             case Err(_) => Inspect(w, src, n, ref) == Broken
             case Ok(b) => Inspect(w, src, n, ref) == Usable(b)
  {
    if FetchBytes(src, n, ref, MAX_BLOB_BYTES).Ok? {
      var m := w.decodeManifest(FetchBytes(src, n, ref, MAX_BLOB_BYTES).value);
      if m.Some? {
        FirstBundleLayerIs(m.value.layers);
      }
    }
  }

  function Inspected(refs: seq<Descriptor>): (r: seq<Descriptor>)
    ensures |r| <= MAX_SIGNATURE_REFERRERS
  {
    if |refs| > MAX_SIGNATURE_REFERRERS then refs[..MAX_SIGNATURE_REFERRERS] else refs
  }

  function Findings(w: Wire, src: Source, n: nat, refs: seq<Descriptor>): (r: seq<Finding>)
    ensures |r| == |refs|
  {
    seq(|refs|, i requires 0 <= i < |refs| => Inspect(w, src, n + 2 * i, refs[i]))
  }

  function Bundles(fs: seq<Finding>): seq<Bytes>
  {
    if fs == [] then []
    else
      var init, last := Bundles(fs[..|fs| - 1]), fs[|fs| - 1];
      if last.Usable? then init + [last.bundle] else init
  }

  /** A target that cannot list referrers, a failed listing, or the descriptors it listed. */
  datatype Listing = NotAGraph | ListingFailed | Listed(refs: seq<Descriptor>)

  datatype Discovery = Discovery(bundles: seq<Bytes>, truncated: bool)

  /** What the loop over the referrers has after these findings. */
  ghost predicate Gathered(fs: seq<Finding>, bundles: seq<Bytes>, failed: bool)
  {
    bundles == Bundles(fs) && (failed <==> Broken in fs)
  }

  method Gather(
      finding: Finding, before: seq<Bytes>, failedBefore: bool, ghost fs: seq<Finding>)
      returns (bundles: seq<Bytes>, failed: bool)
    requires Gathered(fs, before, failedBefore)
    ensures Gathered(fs + [finding], bundles, failed)
  {
    bundles, failed := before, failedBefore;
    match finding {
      case Usable(data) => bundles := bundles + [data];
      case Broken => failed := true;
      case NoBundle =>
    }
    assert (fs + [finding])[..|fs|] == fs;
  }

  /** The findings of the first referrers. */
  ghost predicate FoundIn(w: Wire, src: Source, n: nat, refs: seq<Descriptor>, fs: seq<Finding>)
  {
    |fs| <= |refs| && forall k :: 0 <= k < |fs| ==> fs[k] == Inspect(w, src, n + 2 * k, refs[k])
  }

  lemma FoundNext(w: Wire, src: Source, n: nat, refs: seq<Descriptor>, fs: seq<Finding>)
    requires FoundIn(w, src, n, refs, fs) && |fs| < |refs|
    ensures FoundIn(w, src, n, refs, fs + [Inspect(w, src, n + 2 * |fs|, refs[|fs|])])
  {
  }

  lemma FoundAll(w: Wire, src: Source, n: nat, refs: seq<Descriptor>, fs: seq<Finding>)
    requires FoundIn(w, src, n, refs, fs) && |fs| == |refs|
    ensures fs == Findings(w, src, n, refs)
  {
  }

  /** The loop over the referrers: what is usable, in order, and whether some were broken. */
  method InspectAll(w: Wire, src: Source, n: nat, refs: seq<Descriptor>) returns (bundles: seq<Bytes>, failed: bool)
    ensures Gathered(Findings(w, src, n, refs), bundles, failed)
  {
    bundles, failed := [], false;
    ghost var fs: seq<Finding> := [];
    for i := 0 to |refs|
      invariant |fs| == i && Gathered(fs, bundles, failed) && FoundIn(w, src, n, refs, fs)
    {
      var finding := InspectReferrer(w, src, n + 2 * i, refs[i]);
      FoundNext(w, src, n, refs, fs);
      bundles, failed := Gather(finding, bundles, failed, fs);
      fs := fs + [finding];
    }
    FoundAll(w, src, n, refs, fs);
  }

  /**
   Discovery returns the usable bundles of the first 32 referrers, in order,
   and whether there were more; it fails only when the listing failed or some
   inspected referrer was broken and none was usable.
   */
  method FetchSignatureBundle(w: Wire, src: Source, n: nat, listing: Listing) returns (r: Result<Discovery, ()>)
    ensures r == Discover(w, src, n, listing)
  {
    if listing.NotAGraph? {
      return Ok(Discovery([], false));
    }
    if listing.ListingFailed? {
      return Err(());
    }
    if |listing.refs| == 0 {
      return Ok(Discovery([], false));
    }
    var truncated := |listing.refs| > MAX_SIGNATURE_REFERRERS;
    var refs := listing.refs;
    if truncated {
      refs := refs[..MAX_SIGNATURE_REFERRERS];
    }
    var bundles, failed := InspectAll(w, src, n, refs);
    if |bundles| == 0 {
      return if failed then Err(()) else Ok(Discovery([], truncated));
    }
    r := Ok(Discovery(bundles, truncated));
  }

  function Discover(w: Wire, src: Source, n: nat, listing: Listing): Result<Discovery, ()>
  {
    match listing
    case NotAGraph => Ok(Discovery([], false))
    case ListingFailed => Err(())
    case Listed(refs) =>
      var findings := Findings(w, src, n, Inspected(refs));
      if Bundles(findings) == [] && Broken in findings then Err(())
      else Ok(Discovery(Bundles(findings), |refs| > MAX_SIGNATURE_REFERRERS))
  }

  /** Every usable finding contributes its bundle and nothing else does. */
  lemma {:induction false} BundlesMembers(fs: seq<Finding>, b: Bytes)
    ensures b in Bundles(fs) <==> Usable(b) in fs
  {
    if fs != [] {
      var init, last := fs[..|fs| - 1], fs[|fs| - 1];
      BundlesMembers(init, b);
      assert fs == init + [last];
      assert b in Bundles(fs) <==> b in Bundles(init) || last == Usable(b);
    }
  }

  /**
   Of a listing the first 32 referrers count. Discovery fails when one of them is
   broken and none usable, and otherwise returns exactly their usable bundles.
   */
  lemma DiscoverMeaning(w: Wire, src: Source, n: nat, refs: seq<Descriptor>)
    ensures
      var fs := Findings(w, src, n, if |refs| > 32 then refs[..32] else refs);
      var r := Discover(w, src, n, Listed(refs));
      && (r.Err? <==> Broken in fs && forall x :: x in fs ==> !x.Usable?)
      && (r.Ok? ==> r.value.truncated == (|refs| > 32) && forall b :: b in r.value.bundles <==> Usable(b) in fs)
  {
    var fs := Findings(w, src, n, Inspected(refs));
    forall b ensures b in Bundles(fs) <==> Usable(b) in fs {
      BundlesMembers(fs, b);
    }
    SomeUsableIff(fs);
  }

  /** No bundle is found exactly when every inspected referrer is broken or without one. */
  lemma SomeUsableIff(fs: seq<Finding>)
    ensures Bundles(fs) == [] <==> forall x :: x in fs ==> !x.Usable?
  {
    if Bundles(fs) == [] {
      forall x | x in fs ensures !x.Usable? {
        if x.Usable? {
          BundlesMembers(fs, x.bundle);
        }
      }
    } else {
      BundlesMembers(fs, Bundles(fs)[0]);
      assert Usable(Bundles(fs)[0]) in fs;
    }
  }

  // ---------------------------------------------------------------------
  // Pulling an index

  /** Everything in it is untrusted until verified. */
  datatype FetchedIndex = FetchedIndex(
    coordinate: string, version: string, indexDescriptor: Descriptor, indexBytes: Bytes,
    bundles: seq<Bytes>, truncated: bool)

  datatype PullError = Unresolved | NotIndex | IndexFetch(error: FetchError) | DiscoveryFailed

  datatype Registry = Registry(resolve: string -> Option<Descriptor>, source: Source, listing: Descriptor -> Listing)

  const WALK_REQUESTS: nat := 1 + 2 * MAX_SIGNATURE_REFERRERS

  function PullIndex(w: Wire, registry: Registry, coordinate: string, version: string): Result<FetchedIndex, PullError>
  {
    match registry.resolve(version)
    case None => Err(Unresolved)
    case Some(d) =>
      if d.mediaType != ImageIndex then Err(NotIndex)
      else match FetchBytes(registry.source, 0, d, MAX_BLOB_BYTES)
        case Err(e) => Err(IndexFetch(e))
        case Ok(bytes) =>
          match Discover(w, registry.source, 1, registry.listing(d))
          case Err(_) => Err(DiscoveryFailed)
          case Ok(found) => Ok(FetchedIndex(coordinate, version, d, bytes, found.bundles, found.truncated))
  }

  /**
   What is pulled is an image index under the tag that was asked for, fetched whole, and
   what was discovered for it.
   */
  lemma PulledIsIndex(w: Wire, registry: Registry, coordinate: string, version: string)
    requires PullIndex(w, registry, coordinate, version).Ok?
    ensures var f := PullIndex(w, registry, coordinate, version).value;
      && f.coordinate == coordinate && f.version == version
      && registry.resolve(version) == Some(f.indexDescriptor) && f.indexDescriptor.mediaType == ImageIndex
      && FetchBytes(registry.source, 0, f.indexDescriptor, MAX_BLOB_BYTES) == Ok(f.indexBytes)
      && !registry.listing(f.indexDescriptor).ListingFailed?
      && (registry.listing(f.indexDescriptor).NotAGraph? ==> f.bundles == [] && !f.truncated)
  {
  }

  /** Why nothing is pulled; a listing that failed is never taken for one without signatures. */
  lemma PullRefusals(w: Wire, registry: Registry, coordinate: string, version: string)
    ensures match registry.resolve(version)
      case None => PullIndex(w, registry, coordinate, version) == Err(Unresolved)
      case Some(d) =>
        && (d.mediaType != ImageIndex ==> PullIndex(w, registry, coordinate, version) == Err(NotIndex))
        && (d.mediaType == ImageIndex ==>
              match FetchBytes(registry.source, 0, d, MAX_BLOB_BYTES)
              case Err(e) => PullIndex(w, registry, coordinate, version) == Err(IndexFetch(e))
              case Ok(_) =>
                registry.listing(d).ListingFailed? ==>
                  PullIndex(w, registry, coordinate, version) == Err(DiscoveryFailed))
  {
  }
}
