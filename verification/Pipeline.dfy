/**
 The publishing and installing sides together: the install result depends on
 the index digest alone, what is published is what is installed, and signature
 discovery composes with signature selection.
 */
module Pipeline {
  import opened Wrappers
  import opened Codec
  import opened Assemble
  import Push
  import opened Pull
  import opened Verify

  // ---------------------------------------------------------------------
  // The index digest decides the result

  /** Two walks from one index digest, over any two registries, saw the same documents and binary. */
  lemma SameDigestSameTrail(w: Wire, host: HostPlatform, src1: Source, f1: FetchedIndex, src2: Source, f2: FetchedIndex)
    requires Follow(w, host, src1, f1).Ok? && Follow(w, host, src2, f2).Ok?
    requires f1.indexDescriptor.digest == f2.indexDescriptor.digest
    requires CollisionFree(w, Seen(Follow(w, host, src1, f1).value) + Seen(Follow(w, host, src2, f2).value))
    ensures Follow(w, host, src1, f1).value == Follow(w, host, src2, f2).value
  {
    var t1, t2 := Follow(w, host, src1, f1).value, Follow(w, host, src2, f2).value;
    var m1, l1 := FollowedChain(w, host, src1, f1);
    var m2, l2 := FollowedChain(w, host, src2, f2);
    SameHashSameBytes(w, Seen(t1) + Seen(t2), t1.indexBytes, t2.indexBytes);
    ChainIsDetermined(w, t1, m1, l1, t2, m2, l2, Seen(t1) + Seen(t2));
  }

  lemma SameHashSameBytes(w: Wire, s: set<Bytes>, a: Bytes, b: Bytes)
    requires CollisionFree(w, s) && a in s && b in s && w.hash(a) == w.hash(b)
    ensures a == b
  {
  }

  /**
   Whatever the two registries served, under whatever pins: two accepted
   installs of one index digest differ at most in the recorded signer.
   */
  lemma WalkIsDecidedByIndexDigest(
      w: Wire, host: HostPlatform,
      src1: Source, f1: FetchedIndex, signer1: Identity, pin1: string,
      src2: Source, f2: FetchedIndex, signer2: Identity, pin2: string)
    requires WalkVerifiedIndex(w, host, src1, f1, signer1, pin1).Ok?
    requires WalkVerifiedIndex(w, host, src2, f2, signer2, pin2).Ok?
    requires f1.indexDescriptor.digest == f2.indexDescriptor.digest
    requires CollisionFree(w, Seen(Follow(w, host, src1, f1).value) + Seen(Follow(w, host, src2, f2).value))
    ensures
      var v1, v2 := WalkVerifiedIndex(w, host, src1, f1, signer1, pin1).value,
        WalkVerifiedIndex(w, host, src2, f2, signer2, pin2).value;
      v1 == v2.(signerIdentity := v1.signerIdentity)
  {
    SameDigestSameTrail(w, host, src1, f1, src2, f2);
  }

  // ---------------------------------------------------------------------
  // The published index

  /** The first binary built for the host. */
  function HostBinary(host: HostPlatform, bs: seq<PlatformBinary>): Option<PlatformBinary>
  {
    if bs == [] then None
    else if Platform(bs[0].os, bs[0].arch) == host then Some(bs[0])
    else HostBinary(host, bs[1..])
  }

  lemma {:induction false} HostChildIsHostBinary(
      w: Wire, p: Params, files: Files, host: HostPlatform, bs: seq<PlatformBinary>)
    ensures HostChild(host, Children(w, p, files, bs)) ==
      match HostBinary(host, bs) case None => None case Some(b) => Some(ChildDescriptor(w, p, files, b))
  {
    if bs != [] {
      HostChildIsHostBinary(w, p, files, host, bs[1..]);
      assert Children(w, p, files, bs)[1..] == Children(w, p, files, bs[1..]);
    }
  }

  lemma {:induction false} HostBinaryIn(host: HostPlatform, bs: seq<PlatformBinary>)
    ensures HostBinary(host, bs).Some? ==> HostBinary(host, bs).value in bs
  {
    if bs != [] {
      HostBinaryIn(host, bs[1..]);
    }
  }

  /** What a walk over the published artifacts goes through for platform `b`. */
  function PublishedTrail(w: Wire, p: Params, files: Files, b: PlatformBinary): Trail
  {
    Trail(Assembled(w, p, files).index.data, ChildDescriptor(w, p, files, b), ManifestBlob(w, p, files, b).data,
          ConfigBlob(w, p, b).data, ConfigOf(p, b), BinaryBlob(w, files, b).data)
  }

  function PublishedBytes(w: Wire, p: Params, files: Files): set<Bytes>
  {
    Push.BlobBytes(Leaves(w, p, files, p.binaries)) +
    Push.BlobBytes(Manifests(w, p, files, p.binaries)) +
    {Assembled(w, p, files).index.data}
  }

  lemma PublishedTrailIsPublished(w: Wire, p: Params, files: Files, b: PlatformBinary)
    requires b in p.binaries
    ensures Seen(PublishedTrail(w, p, files, b)) <= PublishedBytes(w, p, files)
  {
    var leaves, manifests := Leaves(w, p, files, p.binaries), Manifests(w, p, files, p.binaries);
    LeavesMembers(w, p, files, p.binaries, ConfigBlob(w, p, b));
    LeavesMembers(w, p, files, p.binaries, BinaryBlob(w, files, b));
    var i :| 0 <= i < |p.binaries| && p.binaries[i] == b;
    assert manifests[i] in manifests;
    assert ConfigBlob(w, p, b) in leaves && BinaryBlob(w, files, b) in leaves;
  }

  /** What an index document commits to, when it is the published one. */
  lemma ChildOfPublished(w: Wire, p: Params, files: Files, host: HostPlatform, f: FetchedIndex)
    requires Lawful(w) && p.binaries != []
    requires f.indexBytes == Assembled(w, p, files).index.data && w.hash(f.indexBytes) == f.indexDescriptor.digest
    ensures ChildOf(w, host, f) ==
      match HostBinary(host, p.binaries) case None => Err(PlatformUnavailable)
        case Some(b) => Ok(ChildDescriptor(w, p, files, b))
  {
    var x := IndexOf(w, p, files);
    assert w.decodeIndex(w.encodeIndex(x)) == Some(x);
    HostChildIsHostBinary(w, p, files, host, p.binaries);
    assert |x.manifests| == |p.binaries|;
  }

  /** The published documents of a platform are linked as the walk expects. */
  lemma PublishedChain(w: Wire, p: Params, files: Files, b: PlatformBinary)
    requires Lawful(w)
    ensures Chain(w, PublishedTrail(w, p, files, b),
      ManifestOf(ConfigBlob(w, p, b), BinaryBlob(w, files, b)), BinaryBlob(w, files, b).Descriptor())
  {
    var m := ManifestOf(ConfigBlob(w, p, b), BinaryBlob(w, files, b));
    var layer := BinaryBlob(w, files, b).Descriptor();
    assert w.decodeManifest(w.encodeManifest(m)) == Some(m);
    assert m.layers[..0] == [] && BinaryLayers(m.layers) == [layer];
  }

  /** Two chains from one child descriptor agree when the hash tells their bytes apart. */
  lemma ChainIsDetermined(
      w: Wire, t1: Trail, m1: Manifest, l1: Descriptor, t2: Trail, m2: Manifest, l2: Descriptor, s: set<Bytes>)
    requires Chain(w, t1, m1, l1) && Chain(w, t2, m2, l2)
    requires t1.indexBytes == t2.indexBytes && t1.childDescriptor == t2.childDescriptor
    requires Seen(t1) <= s && Seen(t2) <= s && CollisionFree(w, s)
    ensures t1 == t2
  {
    SameHashSameBytes(w, s, t1.childBytes, t2.childBytes);
    SameHashSameBytes(w, s, t1.configBytes, t2.configBytes);
    SameHashSameBytes(w, s, t1.binary, t2.binary);
  }

  /** Any walk that succeeds for the published digest went through the published artifacts. */
  lemma FollowOfPublishedDigest(w: Wire, p: Params, files: Files, host: HostPlatform, src: Source, f: FetchedIndex)
    requires Lawful(w) && p.binaries != []
    requires f.indexDescriptor.digest == Assembled(w, p, files).index.digest
    requires Follow(w, host, src, f).Ok?
    requires CollisionFree(w, Seen(Follow(w, host, src, f).value) + PublishedBytes(w, p, files))
    ensures HostBinary(host, p.binaries).Some?
    ensures Follow(w, host, src, f).value == PublishedTrail(w, p, files, HostBinary(host, p.binaries).value)
  {
    var t := Follow(w, host, src, f).value;
    var s := Seen(t) + PublishedBytes(w, p, files);
    var m, layer := FollowedChain(w, host, src, f);
    SameHashSameBytes(w, s, t.indexBytes, Assembled(w, p, files).index.data);
    ChildOfPublished(w, p, files, host, f);
    var b := HostBinary(host, p.binaries).value;
    HostBinaryIn(host, p.binaries);
    PublishedTrailIsPublished(w, p, files, b);
    PublishedChain(w, p, files, b);
    ChainIsDetermined(w, t, m, layer, PublishedTrail(w, p, files, b),
      ManifestOf(ConfigBlob(w, p, b), BinaryBlob(w, files, b)), BinaryBlob(w, files, b).Descriptor(), s);
  }

  /**
   Over any registry, an install accepted for the digest `AssembleIndex`
   produced installs exactly the publisher's first binary for the host.
   */
  lemma AcceptedInstallIsThePublishedBinary(
      w: Wire, p: Params, files: Files, host: HostPlatform, src: Source, f: FetchedIndex, signer: Identity, pin: string)
    requires Lawful(w) && p.binaries != []
    requires f.indexDescriptor.digest == Assembled(w, p, files).index.digest
    requires WalkVerifiedIndex(w, host, src, f, signer, pin).Ok?
    requires CollisionFree(w, Seen(Follow(w, host, src, f).value) + PublishedBytes(w, p, files))
    ensures HostBinary(host, p.binaries).Some? && p.plugin == f.coordinate && p.version == f.version
    ensures var b := HostBinary(host, p.binaries).value;
      WalkVerifiedIndex(w, host, src, f, signer, pin).value ==
        VerifiedPlugin(p.plugin, p.version, f.indexDescriptor.digest, signer, b.entrypoint, DEFAULT_PROTOCOL, host,
          FileData(files, b.path))
  {
    FollowOfPublishedDigest(w, p, files, host, src, f);
  }

  // ---------------------------------------------------------------------
  // An honest store

  /** The registry serves what the store holds; for anything else it may answer what it likes. */
  ghost predicate Honest(src: Source, s: Push.Store)
  {
    forall n: nat, d: Descriptor ::
      && (Push.IsManifestType(d.mediaType) && d.digest in s.manifests ==>
        src(n, d) == Stream(s.manifests[d.digest].data, false))
      && (!Push.IsManifestType(d.mediaType) && d.digest in s.blobs ==> src(n, d) == Stream(s.blobs[d.digest], false))
  }

  lemma AssembledBytesArePublished(w: Wire, p: Params, files: Files)
    ensures Push.AssembledBytes(Assembled(w, p, files)) <= PublishedBytes(w, p, files)
  {
    DedupedMeaning(Leaves(w, p, files, p.binaries));
  }

  /** The store holds `b`'s bytes, pushed as `stored`, and so serves them. */
  lemma ServesStored(w: Wire, idx: AssembledIndex, s: Push.Store, src: Source, stored: Blob, b: Blob, bytes: set<Bytes>)
    requires Push.Coherent(w, idx) && Push.ContentAddressed(w, s)
    requires CollisionFree(w, bytes) && Push.StoredBytes(s) + Push.AssembledBytes(idx) <= bytes
    requires Honest(src, Push.Run(s, Push.Steps(idx)))
    requires Push.Put(stored) in Push.Steps(idx)
    requires stored.digest == b.digest == w.hash(stored.data) == w.hash(b.data) && stored.data in bytes
    requires b.data in bytes
    requires Push.IsManifestType(stored.mediaType) <==> Push.IsManifestType(b.mediaType)
    ensures forall n: nat, d: Descriptor :: d.digest == b.digest && d.mediaType == b.mediaType ==>
      src(n, d) == Stream(b.data, false)
  {
    Push.PushedContent(w, idx, s, stored);
    SameHashSameBytes(w, bytes, stored.data, b.data);
  }

  /** A published blob, its bytes, and the blob under which they were pushed. */
  ghost predicate PushedAs(w: Wire, p: Params, files: Files, b: Blob, stored: Blob)
  {
    && Push.Put(stored) in Push.Steps(Assembled(w, p, files))
    && stored.digest == b.digest == w.hash(stored.data) == w.hash(b.data)
    && stored.data in PublishedBytes(w, p, files) && b.data in PublishedBytes(w, p, files)
    && (Push.IsManifestType(stored.mediaType) <==> Push.IsManifestType(b.mediaType))
  }

  lemma LeafPushedAs(w: Wire, p: Params, files: Files, b: Blob) returns (stored: Blob)
    requires b in Leaves(w, p, files, p.binaries)
    ensures PushedAs(w, p, files, b, stored)
  {
    var idx := Assembled(w, p, files);
    DedupedMeaning(Leaves(w, p, files, p.binaries));
    stored :| stored in idx.blobs && stored.digest == b.digest;
    Push.StepsLayout(idx);
    var i :| 0 <= i < |idx.blobs| && idx.blobs[i] == stored;
    assert Push.Steps(idx)[i] == Push.Put(stored);
    LeafShape(w, p, files, b);
    LeafShape(w, p, files, stored);
  }

  lemma ManifestPushedAsItself(w: Wire, p: Params, files: Files, i: nat)
    requires i < |p.binaries|
    ensures PushedAs(w, p, files, ManifestBlob(w, p, files, p.binaries[i]), ManifestBlob(w, p, files, p.binaries[i]))
  {
    var idx := Assembled(w, p, files);
    Push.StepsLayout(idx);
    assert Push.Steps(idx)[|idx.blobs| + i] == Push.Put(idx.manifests[i]);
    assert idx.manifests[i] in idx.manifests;
  }

  lemma IndexPushedAsItself(w: Wire, p: Params, files: Files)
    ensures PushedAs(w, p, files, Assembled(w, p, files).index, Assembled(w, p, files).index)
  {
    var idx := Assembled(w, p, files);
    Push.StepsLayout(idx);
    assert Push.Steps(idx)[|idx.blobs| + |idx.manifests|] == Push.Put(idx.index);
  }

  lemma LeafShape(w: Wire, p: Params, files: Files, b: Blob)
    requires b in Leaves(w, p, files, p.binaries)
    ensures !Push.IsManifestType(b.mediaType) && w.hash(b.data) == b.digest
  {
    LeavesMembers(w, p, files, p.binaries, b);
  }

  /** An honest store, after a complete push, serves each published blob. */
  lemma ServesPublished(w: Wire, p: Params, files: Files, s: Push.Store, src: Source, b: Blob, stored: Blob)
    requires Lawful(w) && Push.ContentAddressed(w, s)
    requires CollisionFree(w, Push.StoredBytes(s) + PublishedBytes(w, p, files))
    requires Honest(src, Push.Run(s, Push.Steps(Assembled(w, p, files))))
    requires PushedAs(w, p, files, b, stored)
    ensures forall n: nat, d: Descriptor :: d.digest == b.digest && d.mediaType == b.mediaType ==>
      src(n, d) == Stream(b.data, false)
  {
    Push.AssembledIsCoherent(w, p, files);
    AssembledBytesArePublished(w, p, files);
    ServesStored(w, Assembled(w, p, files), s, src, stored, b, Push.StoredBytes(s) + PublishedBytes(w, p, files));
  }

  // ---------------------------------------------------------------------
  // Publishing and then installing

  /** 16 MiB for a document and 500 MiB for a binary. */
  predicate FitsCaps(w: Wire, p: Params, files: Files, b: PlatformBinary)
  {
    && |Assembled(w, p, files).index.data| <= 16 * 1024 * 1024
    && |ManifestBlob(w, p, files, b).data| <= 16 * 1024 * 1024
    && |ConfigBlob(w, p, b).data| <= 16 * 1024 * 1024
    && |FileData(files, b.path)| <= 500 * 1024 * 1024
  }

  /** What a publisher must provide for the host to be able to install. */
  predicate Installable(w: Wire, p: Params, files: Files, host: HostPlatform)
  {
    match HostBinary(host, p.binaries)
    case None => false
    case Some(b) => p.plugin == p.coordinate && b.entrypoint != "" && FitsCaps(w, p, files, b)
  }

  /** One fetch of a published blob from the honest store. */
  lemma FetchPublished(w: Wire, src: Source, n: nat, d: Descriptor, b: Blob, limit: nat)
    requires src(n, d) == Stream(b.data, false) && d.digest == b.digest == w.hash(b.data) && d.size == |b.data|
    ensures FetchBytes(src, n, d, limit) == if |b.data| <= limit then Ok(b.data) else Err(TooLarge)
    ensures FetchChecked(w, src, n, d, limit) == Capped(b.data, limit)
  {
  }

  lemma FollowHonest(w: Wire, p: Params, files: Files, host: HostPlatform, s: Push.Store, src: Source, f: FetchedIndex)
    requires Lawful(w) && Push.ContentAddressed(w, s) && p.binaries != []
    requires CollisionFree(w, Push.StoredBytes(s) + PublishedBytes(w, p, files))
    requires Honest(src, Push.Run(s, Push.Steps(Assembled(w, p, files))))
    requires f.indexDescriptor == Assembled(w, p, files).index.Descriptor()
    requires f.indexBytes == Assembled(w, p, files).index.data
    requires |f.indexBytes| <= MAX_BLOB_BYTES
    ensures Follow(w, host, src, f).Ok? <==>
      HostBinary(host, p.binaries).Some? && FitsCaps(w, p, files, HostBinary(host, p.binaries).value)
    ensures Follow(w, host, src, f).Ok? ==>
      Follow(w, host, src, f).value == PublishedTrail(w, p, files, HostBinary(host, p.binaries).value)
  {
    ChildOfPublished(w, p, files, host, f);
    if HostBinary(host, p.binaries).Some? {
      var b := HostBinary(host, p.binaries).value;
      HostBinaryIn(host, p.binaries);
      FetchesOfPlatform(w, p, files, s, src, b);
      FollowFetched(w, p, files, host, src, f, b);
      WalkOfCaps(w, p, files, b, Follow(w, host, src, f));
    } else {
      NoChildNoWalk(w, host, src, f);
    }
  }

  lemma NoChildNoWalk(w: Wire, host: HostPlatform, src: Source, f: FetchedIndex)
    requires ChildOf(w, host, f).Err?
    ensures Follow(w, host, src, f).Err?
  {
  }

  /** Which walks come to the end, once the index is within its limit. */
  lemma WalkOfCaps(w: Wire, p: Params, files: Files, b: PlatformBinary, walked: Result<Trail, WalkError>)
    requires |Assembled(w, p, files).index.data| <= MAX_BLOB_BYTES && walked == WalkWithin(w, p, files, b)
    ensures walked.Ok? <==> FitsCaps(w, p, files, b)
    ensures walked.Ok? ==> walked.value == PublishedTrail(w, p, files, b)
  {
  }

  function WalkWithin(w: Wire, p: Params, files: Files, b: PlatformBinary): Result<Trail, WalkError>
  {
    if |ManifestBlob(w, p, files, b).data| <= MAX_BLOB_BYTES && |ConfigBlob(w, p, b).data| <= MAX_BLOB_BYTES &&
      |FileData(files, b.path)| <= MAX_BINARY_BYTES
    then Ok(PublishedTrail(w, p, files, b)) else Err(Fetch(TooLarge))
  }

  /** The store answers the three fetches of the walk for platform `b` in full. */
  ghost predicate Fetchable(w: Wire, p: Params, files: Files, src: Source, b: PlatformBinary)
  {
    && (forall n: nat ::
      FetchChecked(w, src, n, ChildDescriptor(w, p, files, b), MAX_BLOB_BYTES) ==
        Capped(ManifestBlob(w, p, files, b).data, MAX_BLOB_BYTES))
    && (forall n: nat ::
      FetchChecked(w, src, n, ConfigBlob(w, p, b).Descriptor(), MAX_BLOB_BYTES) ==
        Capped(ConfigBlob(w, p, b).data, MAX_BLOB_BYTES))
    && (forall n: nat ::
      FetchChecked(w, src, n, BinaryBlob(w, files, b).Descriptor(), MAX_BINARY_BYTES) ==
        Capped(BinaryBlob(w, files, b).data, MAX_BINARY_BYTES))
  }

  lemma FollowFetched(
      w: Wire, p: Params, files: Files, host: HostPlatform, src: Source, f: FetchedIndex, b: PlatformBinary)
    requires Lawful(w) && Fetchable(w, p, files, src, b)
    requires f.indexBytes == Assembled(w, p, files).index.data
    requires ChildOf(w, host, f) == Ok(ChildDescriptor(w, p, files, b))
    ensures Follow(w, host, src, f) == WalkWithin(w, p, files, b)
  {
    PublishedChain(w, p, files, b);
    ChainIsFollowed(w, host, src, f, PublishedTrail(w, p, files, b),
      ManifestOf(ConfigBlob(w, p, b), BinaryBlob(w, files, b)), BinaryBlob(w, files, b).Descriptor());
  }

  /** The three fetches of the walk for platform `b`. */
  lemma FetchesOfPlatform(w: Wire, p: Params, files: Files, s: Push.Store, src: Source, b: PlatformBinary)
    requires Lawful(w) && Push.ContentAddressed(w, s) && b in p.binaries
    requires CollisionFree(w, Push.StoredBytes(s) + PublishedBytes(w, p, files))
    requires Honest(src, Push.Run(s, Push.Steps(Assembled(w, p, files))))
    ensures Fetchable(w, p, files, src, b)
  {
    var i :| 0 <= i < |p.binaries| && p.binaries[i] == b;
    LeavesMembers(w, p, files, p.binaries, ConfigBlob(w, p, b));
    LeavesMembers(w, p, files, p.binaries, BinaryBlob(w, files, b));
    ManifestPushedAsItself(w, p, files, i);
    var config := LeafPushedAs(w, p, files, ConfigBlob(w, p, b));
    var binary := LeafPushedAs(w, p, files, BinaryBlob(w, files, b));
    FetchesOfBlob(w, p, files, s, src, ManifestBlob(w, p, files, b), ManifestBlob(w, p, files, b),
      ChildDescriptor(w, p, files, b), MAX_BLOB_BYTES);
    FetchesOfBlob(w, p, files, s, src, ConfigBlob(w, p, b), config, ConfigBlob(w, p, b).Descriptor(), MAX_BLOB_BYTES);
    FetchesOfBlob(w, p, files, s, src, BinaryBlob(w, files, b), binary, BinaryBlob(w, files, b).Descriptor(),
      MAX_BINARY_BYTES);
  }

  lemma FetchesOfBlob(
      w: Wire, p: Params, files: Files, s: Push.Store, src: Source, b: Blob, stored: Blob, d: Descriptor, limit: nat)
    requires Lawful(w) && Push.ContentAddressed(w, s)
    requires CollisionFree(w, Push.StoredBytes(s) + PublishedBytes(w, p, files))
    requires Honest(src, Push.Run(s, Push.Steps(Assembled(w, p, files))))
    requires PushedAs(w, p, files, b, stored)
    requires d.digest == b.digest && d.mediaType == b.mediaType && d.size == |b.data|
    ensures forall n: nat :: FetchChecked(w, src, n, d, limit) == Capped(b.data, limit)
  {
    ServesPublished(w, p, files, s, src, b, stored);
    forall n: nat ensures FetchChecked(w, src, n, d, limit) == Capped(b.data, limit) {
      FetchPublished(w, src, n, d, b, limit);
    }
  }

  datatype InstallError = NotPulled(reason: PullError) | Rejected(error: IndexError)

  /** Pull an index and verify it. */
  function Install(
    w: Wire, sig: Sigstore, host: HostPlatform, registry: Registry, coordinate: string, version: string, pin: string):
    Result<VerifiedPlugin, InstallError>
  {
    match PullIndex(w, registry, coordinate, version)
    case Err(e) => Err(NotPulled(e))
    case Ok(f) =>
      match Verified(w, sig, host, registry.source, f, pin)
      case Err(e) => Err(Rejected(e))
      case Ok(v) => Ok(v)
  }

  /** The registry resolves the version to the store's tag and serves the store. */
  ghost predicate Serves(registry: Registry, s: Push.Store, version: string)
  {
    version in s.tags && registry.resolve(version) == Some(s.tags[version]) && Honest(registry.source, s)
  }

  lemma SelectedPluginInstalls(
      w: Wire, sig: Sigstore, host: HostPlatform, p: Params, files: Files, s: Push.Store,
      registry: Registry, pin: string, found: Discovery, signer: Identity)
    requires Lawful(w) && Push.ContentAddressed(w, s) && p.binaries != []
    requires CollisionFree(w, Push.StoredBytes(s) + PublishedBytes(w, p, files))
    requires Serves(registry, Push.Run(s, Push.Steps(Assembled(w, p, files))), p.version)
    requires Discover(w, registry.source, 1, registry.listing(Assembled(w, p, files).index.Descriptor())) == Ok(found)
    requires SelectSigner(sig, pin, Assembled(w, p, files).index.digest, found.bundles) == Some(signer)
    ensures Install(w, sig, host, registry, p.coordinate, p.version, pin).Ok? <==> Installable(w, p, files, host)
    ensures Installable(w, p, files, host) ==>
      Install(w, sig, host, registry, p.coordinate, p.version, pin) ==
        Ok(InstalledPlugin(w, p, files, host, HostBinary(host, p.binaries).value, signer))
  {
    var idx := Assembled(w, p, files);
    PulledIndex(w, p, files, s, registry, found);
    if |idx.index.data| <= MAX_BLOB_BYTES {
      var f := FetchedIndex(p.coordinate, p.version, idx.index.Descriptor(), idx.index.data, found.bundles,
        found.truncated);
      SelectedPasses(sig, pin, idx.index.digest, found.bundles);
      WalkOfPublished(w, p, files, host, s, registry.source, f, signer, pin);
      InstallOfPulled(w, sig, host, registry, p.coordinate, p.version, pin, f, signer);
    } else {
      NotInstallable(w, p, files, host);
    }
  }

  /**
   Publish, then install. After a complete push to any honest content-addressed
   store, whatever else that store held and whatever referrers are listed, an
   install with an acceptable signature of the index digest succeeds exactly when the publication
   is installable, and then yields the host binary's bytes, its entrypoint and the version.
   */
  lemma PublishedPluginInstalls(
      w: Wire, sig: Sigstore, host: HostPlatform, p: Params, files: Files, s: Push.Store,
      registry: Registry, pin: string, found: Discovery, k: nat)
    requires Lawful(w) && Push.ContentAddressed(w, s) && p.binaries != []
    requires CollisionFree(w, Push.StoredBytes(s) + PublishedBytes(w, p, files))
    requires Serves(registry, Push.Run(s, Push.Steps(Assembled(w, p, files))), p.version)
    requires Discover(w, registry.source, 1, registry.listing(Assembled(w, p, files).index.Descriptor())) == Ok(found)
    requires FirstVouching(sig, pin, Assembled(w, p, files).index.digest, found.bundles, k)
    ensures Install(w, sig, host, registry, p.coordinate, p.version, pin).Ok? <==> Installable(w, p, files, host)
    ensures Installable(w, p, files, host) ==>
      Install(w, sig, host, registry, p.coordinate, p.version, pin) ==
        Ok(InstalledPlugin(w, p, files, host, HostBinary(host, p.binaries).value,
          sig(found.bundles[k], Assembled(w, p, files).index.digest).value))
  {
    var digest := Assembled(w, p, files).index.digest;
    SelectSignerIsFirst(sig, pin, digest, found.bundles, k);
    SelectedPluginInstalls(w, sig, host, p, files, s, registry, pin, found, sig(found.bundles[k], digest).value);
  }

  lemma NotInstallable(w: Wire, p: Params, files: Files, host: HostPlatform)
    requires |Assembled(w, p, files).index.data| > MAX_BLOB_BYTES
    ensures !Installable(w, p, files, host)
  {
  }

  /** Once an index was pulled and a signer selected, the walk decides. */
  lemma InstallOfPulled(
      w: Wire, sig: Sigstore, host: HostPlatform, registry: Registry, coordinate: string, version: string, pin: string,
      f: FetchedIndex, signer: Identity)
    requires PullIndex(w, registry, coordinate, version) == Ok(f)
    requires f.bundles != [] && SelectSigner(sig, pin, f.indexDescriptor.digest, f.bundles) == Some(signer)
    ensures Install(w, sig, host, registry, coordinate, version, pin) ==
      match WalkVerifiedIndex(w, host, registry.source, f, signer, pin) case Err(e) => Err(Rejected(Walk(e)))
        case Ok(v) => Ok(v)
  {
  }

  /** The walk over the published index, once a signer was accepted. */
  lemma WalkOfPublished(
      w: Wire, p: Params, files: Files, host: HostPlatform, s: Push.Store, src: Source, f: FetchedIndex,
      signer: Identity, pin: string)
    requires Lawful(w) && Push.ContentAddressed(w, s) && p.binaries != []
    requires CollisionFree(w, Push.StoredBytes(s) + PublishedBytes(w, p, files))
    requires Honest(src, Push.Run(s, Push.Steps(Assembled(w, p, files))))
    requires f.indexDescriptor == Assembled(w, p, files).index.Descriptor()
    requires f.indexBytes == Assembled(w, p, files).index.data
    requires |f.indexBytes| <= MAX_BLOB_BYTES && PolicyAccepts(pin, signer)
    requires f.coordinate == p.coordinate && f.version == p.version
    ensures WalkVerifiedIndex(w, host, src, f, signer, pin).Ok? <==> Installable(w, p, files, host)
    ensures Installable(w, p, files, host) ==>
      WalkVerifiedIndex(w, host, src, f, signer, pin) ==
        Ok(InstalledPlugin(w, p, files, host, HostBinary(host, p.binaries).value, signer))
  {
    FollowHonest(w, p, files, host, s, src, f);
    VerdictOnPublished(w, p, files, host, f, signer, Follow(w, host, src, f),
      WalkVerifiedIndex(w, host, src, f, signer, pin));
  }

  /** The checks of the fields, on whatever trail the walk came back with. */
  lemma VerdictOnPublished(
      w: Wire, p: Params, files: Files, host: HostPlatform, f: FetchedIndex, signer: Identity,
      walked: Result<Trail, WalkError>, verdict: Result<VerifiedPlugin, WalkError>)
    requires f.indexDescriptor.digest == Assembled(w, p, files).index.digest
    requires |Assembled(w, p, files).index.data| <= MAX_BLOB_BYTES
    requires f.coordinate == p.coordinate && f.version == p.version
    requires walked.Ok? <==>
      HostBinary(host, p.binaries).Some? && FitsCaps(w, p, files, HostBinary(host, p.binaries).value)
    requires walked.Ok? ==> walked.value == PublishedTrail(w, p, files, HostBinary(host, p.binaries).value)
    requires verdict == CheckedFields(host, f, walked, signer)
    ensures verdict.Ok? <==> Installable(w, p, files, host)
    ensures verdict.Ok? ==>
      verdict == Ok(InstalledPlugin(w, p, files, host, HostBinary(host, p.binaries).value, signer))
  {
  }

  /** What an install of platform `b` records and writes. */
  function InstalledPlugin(
    w: Wire, p: Params, files: Files, host: HostPlatform, b: PlatformBinary, signer: Identity): VerifiedPlugin
  {
    VerifiedPlugin(p.coordinate, p.version, Assembled(w, p, files).index.digest, signer,
      b.entrypoint, DEFAULT_PROTOCOL, host, FileData(files, b.path))
  }

  /** Pulling the published index from the honest store. */
  lemma PulledIndex(w: Wire, p: Params, files: Files, s: Push.Store, registry: Registry, found: Discovery)
    requires Lawful(w) && Push.ContentAddressed(w, s)
    requires CollisionFree(w, Push.StoredBytes(s) + PublishedBytes(w, p, files))
    requires Serves(registry, Push.Run(s, Push.Steps(Assembled(w, p, files))), p.version)
    requires Discover(w, registry.source, 1, registry.listing(Assembled(w, p, files).index.Descriptor())) == Ok(found)
    ensures var index := Assembled(w, p, files).index;
      PullIndex(w, registry, p.coordinate, p.version) ==
        if |index.data| <= MAX_BLOB_BYTES
        then Ok(FetchedIndex(p.coordinate, p.version, index.Descriptor(), index.data, found.bundles, found.truncated))
        else Err(IndexFetch(TooLarge))
  {
    var index := Assembled(w, p, files).index;
    TagAfterPush(w, p, files, s);
    IndexPushedAsItself(w, p, files);
    ServesPublished(w, p, files, s, registry.source, index, index);
    FetchPublished(w, registry.source, 0, index.Descriptor(), index, MAX_BLOB_BYTES);
  }

  /** After a complete push the version is tagged with the index. */
  lemma TagAfterPush(w: Wire, p: Params, files: Files, s: Push.Store)
    requires Lawful(w)
    ensures var idx := Assembled(w, p, files); var t := Push.Run(s, Push.Steps(idx));
      idx.version in t.tags && t.tags[idx.version] == idx.index.Descriptor()
  {
    var idx := Assembled(w, p, files);
    var steps := Push.Steps(idx);
    Push.StepsLayout(idx);
    Push.AssembledIsCoherent(w, p, files);
    Push.StepsAreLeavesFirst(w, idx, s);
    assert Push.Ready(w, Push.Run(s, steps[..|steps| - 1]), steps[|steps| - 1]);
  }

  lemma SelectedPasses(sig: Sigstore, pin: string, digest: Digest, bundles: seq<Bytes>)
    requires SelectSigner(sig, pin, digest, bundles).Some?
    ensures bundles != [] && PolicyAccepts(pin, SelectSigner(sig, pin, digest, bundles).value)
  {
    var _ := FirstOfSelected(sig, pin, digest, bundles);
  }

  // ---------------------------------------------------------------------
  // Discovery and selection

  /** Referrer `k` holds a bundle that passes and no referrer before it does. */
  ghost predicate FirstAccepted(sig: Sigstore, pin: string, digest: Digest, fs: seq<Finding>, k: int)
  {
    && 0 <= k < |fs| && Accepted(sig, pin, digest, fs[k])
    && forall i :: 0 <= i < k ==> !Accepted(sig, pin, digest, fs[i])
  }

  predicate Accepted(sig: Sigstore, pin: string, digest: Digest, f: Finding)
  {
    f.Usable? && Vouches(sig, pin, digest, f.bundle)
  }

  lemma NoneSelectedFromFindings(sig: Sigstore, pin: string, digest: Digest, fs: seq<Finding>)
    ensures SelectSigner(sig, pin, digest, Bundles(fs)).None? <==>
      forall f :: f in fs ==> !Accepted(sig, pin, digest, f)
  {
    NoSignerIff(sig, pin, digest, Bundles(fs));
    forall b ensures b in Bundles(fs) <==> Usable(b) in fs {
      BundlesMembers(fs, b);
    }
    forall f | f in fs && f.Usable? ensures f.bundle in Bundles(fs) {
      assert f == Usable(f.bundle);
    }
  }

  lemma {:induction false} FirstSelectedFromFindings(
      sig: Sigstore, pin: string, digest: Digest, fs: seq<Finding>, k: int)
    requires FirstAccepted(sig, pin, digest, fs, k)
    ensures SelectSigner(sig, pin, digest, Bundles(fs)) == sig(fs[k].bundle, digest)
  {
    var init, last := fs[..|fs| - 1], fs[|fs| - 1];
    if last.Usable? {
      SelectAppend(sig, pin, digest, Bundles(init), last.bundle);
    }
    if k < |init| {
      FirstSelectedFromFindings(sig, pin, digest, init, k);
    } else {
      NoneSelectedFromFindings(sig, pin, digest, init);
    }
  }

  lemma {:induction false} SelectAppend(sig: Sigstore, pin: string, digest: Digest, xs: seq<Bytes>, y: Bytes)
    ensures SelectSigner(sig, pin, digest, xs + [y]) ==
      match SelectSigner(sig, pin, digest, xs)
      case Some(id) => Some(id)
      case None => if Vouches(sig, pin, digest, y) then sig(y, digest) else None
  {
    if xs == [] {
      assert xs + [y] == [y];
      assert [y][1..] == [];
    } else {
      SelectAppend(sig, pin, digest, xs[1..], y);
      assert (xs + [y])[1..] == xs[1..] + [y];
    }
  }

  /**
   Discovery and selection compose: of the first 32 referrers, the first whose
   bundle passes both checks gives the signer with which the walk is entered;
   broken and bundle-less referrers around it change nothing, and with no such
   referrer nothing is installed.
   */
  lemma DiscoveryAndSelectionCompose(
      w: Wire, sig: Sigstore, host: HostPlatform, registry: Registry, refs: seq<Descriptor>,
      coordinate: string, version: string, pin: string)
    requires PullIndex(w, registry, coordinate, version).Ok?
    requires registry.listing(PullIndex(w, registry, coordinate, version).value.indexDescriptor) == Listed(refs)
    ensures
      var f := PullIndex(w, registry, coordinate, version).value;
      var digest := f.indexDescriptor.digest;
      var fs := Findings(w, registry.source, 1, Inspected(refs));
      && f.truncated == (|refs| > MAX_SIGNATURE_REFERRERS)
      && (forall k :: FirstAccepted(sig, pin, digest, fs, k) ==>
            Verified(w, sig, host, registry.source, f, pin) ==
              match WalkVerifiedIndex(w, host, registry.source, f, sig(fs[k].bundle, digest).value, pin)
              case Ok(v) => Ok(v) case Err(e) => Err(Walk(e)))
      && ((forall x :: x in fs ==> !Accepted(sig, pin, digest, x)) ==>
            Verified(w, sig, host, registry.source, f, pin).Err? &&
              !Verified(w, sig, host, registry.source, f, pin).error.Walk?)
  {
    var f := PullIndex(w, registry, coordinate, version).value;
    var fs := Findings(w, registry.source, 1, Inspected(refs));
    var digest := f.indexDescriptor.digest;
    NoneSelectedFromFindings(sig, pin, digest, fs);
    forall k | FirstAccepted(sig, pin, digest, fs, k)
      ensures SelectSigner(sig, pin, digest, Bundles(fs)) == sig(fs[k].bundle, digest)
    {
      FirstSelectedFromFindings(sig, pin, digest, fs, k);
    }
  }

  predicate Says(r: Result<VerifiedPlugin, InstallError>, sentinel: Sentinel)
  {
    r.Err? && r.error.Rejected? && Is(r.error.error, sentinel)
  }

  /**
   When an install is reported as unsigned: on a target that cannot list
   referrers, when no inspected referrer holds a bundle or is broken, whether or
   not the listing was cut, or when it was not cut, a bundle without content is
   among those found and none is accepted. Never when the listing failed.
   */
  lemma ReportedUnsignedIff(
      w: Wire, sig: Sigstore, host: HostPlatform, registry: Registry, coordinate: string, version: string, pin: string)
    requires registry.resolve(version).Some? && registry.resolve(version).value.mediaType == ImageIndex
    requires FetchBytes(registry.source, 0, registry.resolve(version).value, MAX_BLOB_BYTES).Ok?
    ensures Says(Install(w, sig, host, registry, coordinate, version, pin), Unsigned) <==>
      match registry.listing(registry.resolve(version).value)
      case NotAGraph => true
      case ListingFailed => false
      case Listed(refs) =>
        var fs := Findings(w, registry.source, 1, Inspected(refs));
        || (forall x :: x in fs ==> x == NoBundle)
        || (|refs| <= MAX_SIGNATURE_REFERRERS &&
          EmptyAndNoneAccepted(sig, pin, registry.resolve(version).value.digest, fs))
  {
    if registry.listing(registry.resolve(version).value).Listed? {
      var fs := Findings(w, registry.source, 1, Inspected(registry.listing(registry.resolve(version).value).refs));
      SomeUsableIff(fs);
      if Bundles(fs) != [] {
        var f := PullIndex(w, registry, coordinate, version).value;
        UnsignedDespiteBundles(w, sig, host, registry.source, f, pin, fs);
      }
    }
  }

  /** A bundle without content was found, and none that is accepted. */
  ghost predicate EmptyAndNoneAccepted(sig: Sigstore, pin: string, digest: Digest, fs: seq<Finding>)
  {
    Usable("") in fs && forall x :: x in fs ==> !Accepted(sig, pin, digest, x)
  }

  lemma UnsignedDespiteBundles(
      w: Wire, sig: Sigstore, host: HostPlatform, src: Source, f: FetchedIndex, pin: string, fs: seq<Finding>)
    requires f.bundles == Bundles(fs) != []
    ensures var r := Verified(w, sig, host, src, f, pin);
      r.Err? && Is(r.error, Unsigned) <==> !f.truncated && EmptyAndNoneAccepted(sig, pin, f.indexDescriptor.digest, fs)
  {
    var digest := f.indexDescriptor.digest;
    NoneSelectedFromFindings(sig, pin, digest, fs);
    BundlesMembers(fs, "");
    NoSignerIff(sig, pin, digest, f.bundles);
    if SelectSigner(sig, pin, digest, f.bundles).None? {
      RejectionIsIff(w, sig, host, src, f, pin, Unsigned);
    }
  }

  /**
   So a registry that lists 32 referrers without a bundle ahead of any other,
   each with the digest and size of what it serves, has the index reported as
   unsigned, although the listing was cut and the last one may hold a signature.
   */
  lemma FloodHidesTheRest(
      w: Wire, sig: Sigstore, host: HostPlatform, index: Descriptor, bytes: Bytes, last: Descriptor, src: Source,
      coordinate: string, version: string, pin: string)
    requires Lawful(w) && index.mediaType == ImageIndex
    requires FetchBytes(src, 0, index, MAX_BLOB_BYTES) == Ok(bytes)
    requires Junk(w, index).size <= MAX_BLOB_BYTES
    requires forall n: nat :: src(n, Junk(w, index)) == Stream(w.encodeManifest(EmptyManifest(index)), false)
    ensures
      var registry := Registry(_ => Some(index), src, _ => Listed(Flood(w, index, last)));
      && PullIndex(w, registry, coordinate, version).Ok? && PullIndex(w, registry, coordinate, version).value.truncated
      && Says(Install(w, sig, host, registry, coordinate, version, pin), Unsigned)
  {
    var refs := Flood(w, index, last);
    var registry := Registry(_ => Some(index), src, _ => Listed(refs));
    var fs := Findings(w, src, 1, Inspected(refs));
    assert w.decodeManifest(w.encodeManifest(EmptyManifest(index))) == Some(EmptyManifest(index));
    forall x | x in fs ensures x == NoBundle {
      var i :| 0 <= i < |fs| && fs[i] == x;
      assert Inspected(refs)[i] == Junk(w, index);
    }
    ReportedUnsignedIff(w, sig, host, registry, coordinate, version, pin);
  }

  /** Such a registry exists for every index: it serves the index, and the empty manifest under its own digest. */
  lemma FloodReadsAsUnsigned(
      w: Wire, sig: Sigstore, host: HostPlatform, index: Descriptor, bytes: Bytes, last: Descriptor,
      coordinate: string, version: string, pin: string) returns (registry: Registry)
    requires Lawful(w) && index.mediaType == ImageIndex && index.digest == w.hash(bytes) && index.size == |bytes|
    requires |bytes| <= MAX_BLOB_BYTES && Junk(w, index).size <= MAX_BLOB_BYTES
    ensures registry.listing(index) == Listed(Flood(w, index, last))
    ensures forall n: nat :: registry.source(n, Junk(w, index)) == Stream(w.encodeManifest(EmptyManifest(index)), false)
    ensures PullIndex(w, registry, coordinate, version).Ok?
    ensures PullIndex(w, registry, coordinate, version).value.truncated
    ensures Says(Install(w, sig, host, registry, coordinate, version, pin), Unsigned)
  {
    var junk, content := Junk(w, index), w.encodeManifest(EmptyManifest(index));
    var src: Source := (n: nat, d: Descriptor) => Stream(if d == junk then content else bytes, false);
    registry := Registry(_ => Some(index), src, _ => Listed(Flood(w, index, last)));
    FloodHidesTheRest(w, sig, host, index, bytes, last, src, coordinate, version, pin);
  }

  /**
   One referrer with a bundle layer of no bytes is a bundle that is present, and
   yet the index is reported to have none.
   */
  lemma EmptyBundleReadsAsUnsigned(
      w: Wire, sig: Sigstore, host: HostPlatform, index: Descriptor, bytes: Bytes,
      coordinate: string, version: string, pin: string) returns (registry: Registry)
    requires Lawful(w) && index.mediaType == ImageIndex && index.digest == w.hash(bytes) && index.size == |bytes|
    requires |bytes| <= MAX_BLOB_BYTES && |w.encodeManifest(Hollow(w, index))| <= MAX_BLOB_BYTES
    ensures registry.listing(index) == Listed([HollowReferrer(w, index)])
    ensures PullIndex(w, registry, coordinate, version).Ok?
    ensures PullIndex(w, registry, coordinate, version).value.bundles == [""]
    ensures Install(w, sig, host, registry, coordinate, version, pin) == Err(Rejected(Alone(Unsigned)))
  {
    var ref, m := HollowReferrer(w, index), Hollow(w, index);
    var src: Source := (n: nat, d: Descriptor) =>
      Stream(if d == ref then w.encodeManifest(m) else if d == m.layers[0] then "" else bytes, false);
    registry := Registry(_ => Some(index), src, _ => Listed([ref]));
    assert w.decodeManifest(w.encodeManifest(m)) == Some(m);
    var fs := Findings(w, src, 1, Inspected([ref]));
    assert Inspect(w, src, 1, ref) == Usable("");
    OneUsable(fs, "");
    assert src(0, index) == Stream(bytes, false);
    var f := FetchedIndex(coordinate, version, index, bytes, [""], false);
    assert PullIndex(w, registry, coordinate, version) == Ok(f);
    LoneErrorIsReported(w, sig, host, src, f, pin, "", Unsigned);
  }

  lemma OneUsable(fs: seq<Finding>, b: Bytes)
    requires fs == [Usable(b)]
    ensures Bundles(fs) == [b] && Broken !in fs
  {
    assert fs[..0] == [] && [] + [b] == [b];
  }

  /** A referrer of the index whose bundle is empty. */
  function Hollow(w: Wire, index: Descriptor): Manifest
  {
    EmptyManifest(index).(layers := [Descriptor(SigstoreBundle, w.hash(""), 0, None)])
  }

  function HollowReferrer(w: Wire, index: Descriptor): Descriptor
  {
    NewBlob(w, ImageManifest, w.encodeManifest(Hollow(w, index))).Descriptor()
  }

  /** A referrer of the index that holds nothing, described as it is. */
  function Junk(w: Wire, index: Descriptor): Descriptor
  {
    var bytes := w.encodeManifest(EmptyManifest(index));
    Descriptor(ImageManifest, w.hash(bytes), |bytes|, None)
  }

  function Flood(w: Wire, index: Descriptor, last: Descriptor): seq<Descriptor>
  {
    seq(32, _ => Junk(w, index)) + [last]
  }

  function EmptyManifest(index: Descriptor): Manifest
  {
    Manifest(ImageManifest, index, [], Some(SigstoreBundle), Some(index))
  }
}
