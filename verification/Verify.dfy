/**
 The verification walk: signature and identity first, then index, child
 manifest, config and binary, each checked against the digest that named it
 (internal/verify/walk.go:26-276). Sigstore is an oracle from a bundle and an
 index digest to a signer identity.
 */
module Verify {
  import opened Wrappers
  import opened Codec
  import opened Pull

  type HostPlatform = p: Platform | p.os != "" && p.arch != "" witness Platform("linux", "amd64")

  /** A canonical keyless identity; never empty, as issuer and subject are checked to be present. */
  type Identity = s: string | s != "" witness "keyless:issuer#subject"

  /** `None` when the signature does not verify for that digest. */
  type Sigstore = (Bytes, Digest) -> Option<Identity>

  datatype WalkError =
    | IdentityMismatch
    | DigestMismatch
    | PlatformUnavailable
    | Malformed
    | Fetch(error: FetchError)

  datatype VerifiedPlugin = VerifiedPlugin(
    coordinate: string, version: string, indexDigest: Digest, signerIdentity: Identity,
    entrypoint: string, protocol: string, platform: Platform, binary: Bytes)

  /** An empty pin accepts any identity; any other accepts itself only. */
  predicate PolicyAccepts(pin: string, id: Identity)
  {
    pin == "" || id == pin
  }

  // ---------------------------------------------------------------------
  // Selecting the child and the layer

  predicate MatchesHost(host: HostPlatform, d: Descriptor)
  {
    d.platform.Some? && d.platform.value == host
  }

  function HostChild(host: HostPlatform, children: seq<Descriptor>): (r: Option<Descriptor>)
    ensures r.Some? ==> r.value in children && MatchesHost(host, r.value)
    ensures r.None? <==> forall c :: c in children ==> !MatchesHost(host, c)
  {
    if children == [] then None
    else if MatchesHost(host, children[0]) then Some(children[0])
    else
      var rest := HostChild(host, children[1..]);
      assert forall c :: c in children ==> c == children[0] || c in children[1..];
      rest
  }

  /** The first child whose own platform is the host's; a child without one never matches. */
  method SelectHostChild(host: HostPlatform, children: seq<Descriptor>) returns (r: Result<Descriptor, WalkError>)
    ensures r == match HostChild(host, children) case Some(c) => Ok(c) case None => Err(PlatformUnavailable)
  {
    for i := 0 to |children|
      invariant HostChild(host, children) == HostChild(host, children[i..])
    {
      var c := children[i];
      if c.platform.None? || c.platform.value.os == "" || c.platform.value.arch == "" {
        continue;
      }
      if c.platform.value.os == host.os && c.platform.value.arch == host.arch {
        return Ok(c);
      }
    }
    r := Err(PlatformUnavailable);
  }

  function BinaryLayers(layers: seq<Descriptor>): seq<Descriptor>
  {
    if layers == [] then []
    else
      var init, last := BinaryLayers(layers[..|layers| - 1]), layers[|layers| - 1];
      if last.mediaType == PluginBinary then init + [last] else init
  }

  /** Exactly one binary layer, or an error. */
  method SingleBinaryLayer(layers: seq<Descriptor>) returns (r: Result<Descriptor, WalkError>)
    ensures r == TheBinaryLayer(layers)
  {
    var found: Option<Descriptor> := None;
    for i := 0 to |layers|
      invariant BinaryLayers(layers[..i]) == match found case None => [] case Some(d) => [d]
    {
      assert layers[..i+1][..i] == layers[..i];
      if layers[i].mediaType == PluginBinary {
        if found.Some? {
          BinaryLayersGrow(layers, i + 1);
          return Err(Malformed);
        }
        found := Some(layers[i]);
      }
    }
    assert layers[..|layers|] == layers;
    r := if found.None? then Err(Malformed) else Ok(found.value);
  }

  lemma {:induction false} BinaryLayersGrow(layers: seq<Descriptor>, i: nat)
    requires i <= |layers|
    ensures |BinaryLayers(layers)| >= |BinaryLayers(layers[..i])|
  {
    if i == |layers| {
      assert layers[..i] == layers;
    } else {
      var init := layers[..|layers| - 1];
      BinaryLayersGrow(init, i);
      assert init[..i] == layers[..i];
    }
  }

  function TheBinaryLayer(layers: seq<Descriptor>): Result<Descriptor, WalkError>
  {
    var bins := BinaryLayers(layers);
    if |bins| == 1 then Ok(bins[0]) else Err(Malformed)
  }

  // ---------------------------------------------------------------------
  // The walk

  function FetchChecked(w: Wire, src: Source, n: nat, d: Descriptor, limit: nat): (r: Result<Bytes, WalkError>)
    ensures r.Ok? ==> w.hash(r.value) == d.digest
  {
    match FetchBytes(src, n, d, limit)
    case Err(e) => Err(Fetch(e))
    case Ok(data) => if w.hash(data) == d.digest then Ok(data) else Err(DigestMismatch)
  }

  /** The documents and bytes a walk went through. */
  datatype Trail = Trail(
    indexBytes: Bytes, childDescriptor: Descriptor, childBytes: Bytes,
    configBytes: Bytes, config: Config, binary: Bytes)

  function Seen(t: Trail): set<Bytes>
  {
    {t.indexBytes, t.childBytes, t.configBytes, t.binary}
  }

  function OrElse<T>(o: Option<T>, e: WalkError): Result<T, WalkError>
  {
    match o case Some(x) => Ok(x) case None => Err(e)
  }

  /** The child descriptor an index commits to for the host. */
  function ChildOf(w: Wire, host: HostPlatform, f: FetchedIndex): Result<Descriptor, WalkError>
  {
    if w.hash(f.indexBytes) != f.indexDescriptor.digest then Err(DigestMismatch)
    else match w.decodeIndex(f.indexBytes)
      case None => Err(Malformed)
      case Some(index) =>
        if index.mediaType != ImageIndex || index.manifests == [] then Err(Malformed)
        else OrElse(HostChild(host, index.manifests), PlatformUnavailable)
  }

  /** From the index bytes to the binary, checking every digest on the way. */
  function Follow(w: Wire, host: HostPlatform, src: Source, f: FetchedIndex): Result<Trail, WalkError>
  {
    var childDescriptor :- ChildOf(w, host, f);
    var childBytes :- FetchChecked(w, src, WALK_REQUESTS, childDescriptor, MAX_BLOB_BYTES);
    var child :- OrElse(w.decodeManifest(childBytes), Malformed);
    if child.config.mediaType != PluginConfig then Err(Malformed)
    else
      var configBytes :- FetchChecked(w, src, WALK_REQUESTS + 1, child.config, MAX_BLOB_BYTES);
      var config :- OrElse(w.decodeConfig(configBytes), Malformed);
      var layer :- TheBinaryLayer(child.layers);
      var binary :- FetchChecked(w, src, WALK_REQUESTS + 2, layer, MAX_BINARY_BYTES);
      Ok(Trail(f.indexBytes, childDescriptor, childBytes, configBytes, config, binary))
  }

  /** The links of a completed walk. */
  ghost predicate Chain(w: Wire, t: Trail, m: Manifest, layer: Descriptor)
  {
    && w.hash(t.childBytes) == t.childDescriptor.digest
    && w.decodeManifest(t.childBytes) == Some(m)
    && m.config.mediaType == PluginConfig
    && w.hash(t.configBytes) == m.config.digest
    && w.decodeConfig(t.configBytes) == Some(t.config)
    && TheBinaryLayer(m.layers) == Ok(layer)
    && w.hash(t.binary) == layer.digest
  }

  /** A completed walk has all its links. */
  lemma FollowedChain(
      w: Wire, host: HostPlatform, src: Source, f: FetchedIndex) returns (m: Manifest, layer: Descriptor)
    requires Follow(w, host, src, f).Ok?
    ensures var t := Follow(w, host, src, f).value;
      t.indexBytes == f.indexBytes && ChildOf(w, host, f) == Ok(t.childDescriptor) && Chain(w, t, m, layer)
  {
    var t := Follow(w, host, src, f).value;
    m := w.decodeManifest(t.childBytes).value;
    layer := TheBinaryLayer(m.layers).value;
  }

  function Capped(data: Bytes, limit: nat): Result<Bytes, WalkError>
  {
    if |data| <= limit then Ok(data) else Err(Fetch(TooLarge))
  }

  /** With all links in place and every fetch answered in full, the walk completes unless a size cap stops it. */
  lemma ChainIsFollowed(
      w: Wire, host: HostPlatform, src: Source, f: FetchedIndex, t: Trail, m: Manifest, layer: Descriptor)
    requires t.indexBytes == f.indexBytes && ChildOf(w, host, f) == Ok(t.childDescriptor) && Chain(w, t, m, layer)
    requires FetchChecked(w, src, WALK_REQUESTS, t.childDescriptor, MAX_BLOB_BYTES) ==
      Capped(t.childBytes, MAX_BLOB_BYTES)
    requires FetchChecked(w, src, WALK_REQUESTS + 1, m.config, MAX_BLOB_BYTES) == Capped(t.configBytes, MAX_BLOB_BYTES)
    requires FetchChecked(w, src, WALK_REQUESTS + 2, layer, MAX_BINARY_BYTES) == Capped(t.binary, MAX_BINARY_BYTES)
    ensures Follow(w, host, src, f) ==
      if |t.childBytes| <= MAX_BLOB_BYTES && |t.configBytes| <= MAX_BLOB_BYTES && |t.binary| <= MAX_BINARY_BYTES
      then Ok(t)
      else Err(Fetch(TooLarge))
  {
  }

  function WalkVerifiedIndex(w: Wire, host: HostPlatform, src: Source, f: FetchedIndex, signer: Identity, pin: string):
    Result<VerifiedPlugin, WalkError>
  {
    if !PolicyAccepts(pin, signer) then Err(IdentityMismatch)
    else CheckedFields(host, f, Follow(w, host, src, f), signer)
  }

  /** The config must have an entrypoint and be for the version and coordinate that were asked for. */
  function CheckedFields(host: HostPlatform, f: FetchedIndex, walked: Result<Trail, WalkError>, signer: Identity):
    Result<VerifiedPlugin, WalkError>
  {
    var t :- walked;
    if t.config.entrypoint == "" then Err(Malformed)
    else if t.config.version != f.version then Err(Malformed)
    else if t.config.plugin != f.coordinate then Err(Malformed)
    else
      Ok(VerifiedPlugin(f.coordinate, f.version, f.indexDescriptor.digest, signer,
        t.config.entrypoint, t.config.protocol, host, t.binary))
  }

  // ---------------------------------------------------------------------
  // What a walk accepts and what it refuses

  /** Child `k` is for the host and none before it is. */
  ghost predicate FirstForHost(host: HostPlatform, children: seq<Descriptor>, k: int)
  {
    && 0 <= k < |children| && children[k].platform == Some(host)
    && forall i :: 0 <= i < k ==> children[i].platform != Some(host)
  }

  lemma {:induction false} HostChildIsFirst(host: HostPlatform, children: seq<Descriptor>, k: int)
    requires FirstForHost(host, children, k)
    ensures HostChild(host, children) == Some(children[k])
  {
    if k > 0 {
      assert children[0].platform != Some(host);
      forall i | 0 <= i < k - 1 ensures children[1..][i].platform != Some(host) {
        assert children[1..][i] == children[i + 1];
      }
      HostChildIsFirst(host, children[1..], k - 1);
    }
  }

  lemma {:induction false} FirstChild(host: HostPlatform, children: seq<Descriptor>) returns (k: nat)
    requires exists c :: c in children && c.platform == Some(host)
    ensures FirstForHost(host, children, k)
  {
    if children[0].platform == Some(host) {
      k := 0;
    } else {
      var c :| c in children && c.platform == Some(host);
      assert children == [children[0]] + children[1..] && c in children[1..];
      var rest := FirstChild(host, children[1..]);
      k := rest + 1;
      forall i | 0 <= i < k ensures children[i].platform != Some(host) {
        assert i > 0 ==> children[i] == children[1..][i - 1];
      }
    }
  }

  /** Layer `k` is a binary and no other layer is. */
  ghost predicate OnlyBinary(layers: seq<Descriptor>, k: int)
  {
    && 0 <= k < |layers| && layers[k].mediaType == PluginBinary
    && forall i :: 0 <= i < |layers| && layers[i].mediaType == PluginBinary ==> i == k
  }

  ghost predicate NoBinary(layers: seq<Descriptor>)
  {
    forall i :: 0 <= i < |layers| ==> layers[i].mediaType != PluginBinary
  }

  /** The layer that is taken is the only binary one, and nothing is taken when there is none or another. */
  lemma {:induction false} TheBinaryLayerIsOnly(layers: seq<Descriptor>)
    ensures TheBinaryLayer(layers).Ok? <==> exists k :: OnlyBinary(layers, k)
    ensures forall k :: OnlyBinary(layers, k) ==> TheBinaryLayer(layers) == Ok(layers[k])
    ensures BinaryLayers(layers) == [] <==> NoBinary(layers)
  {
    if layers != [] {
      var n := |layers| - 1;
      var init, last := layers[..n], layers[n];
      TheBinaryLayerIsOnly(init);
      if last.mediaType == PluginBinary {
        if NoBinary(init) {
          assert OnlyBinary(layers, n);
          assert BinaryLayers(layers) == [last];
        } else {
          var i :| 0 <= i < n && init[i].mediaType == PluginBinary;
          assert layers[i].mediaType == PluginBinary && |BinaryLayers(layers)| >= 2;
        }
      } else {
        forall k ensures OnlyBinary(layers, k) <==> OnlyBinary(init, k) {
        }
        assert NoBinary(layers) <==> NoBinary(init);
      }
    }
  }

  /** The index document of the verified digest, and the child in it that is for the host. */
  ghost predicate Commits(w: Wire, host: HostPlatform, f: FetchedIndex, index: Codec.Index, k: int)
  {
    && w.hash(f.indexBytes) == f.indexDescriptor.digest && w.decodeIndex(f.indexBytes) == Some(index)
    && index.mediaType == ImageIndex && FirstForHost(host, index.manifests, k)
  }

  /** Every walk that completes started at the first child for the host of an image index of the verified digest. */
  lemma WalkStartsAtIndex(w: Wire, host: HostPlatform, src: Source, f: FetchedIndex)
      returns (index: Codec.Index, k: nat)
    requires Follow(w, host, src, f).Ok?
    ensures Commits(w, host, f, index, k) && Follow(w, host, src, f).value.childDescriptor == index.manifests[k]
  {
    index := w.decodeIndex(f.indexBytes).value;
    var d := HostChild(host, index.manifests).value;
    assert d in index.manifests && d.platform == Some(host);
    k := FirstChild(host, index.manifests);
    HostChildIsFirst(host, index.manifests, k);
  }

  /** What becomes of index bytes of another digest, that are no image index, or that have no child for the host. */
  lemma IndexRefusals(w: Wire, host: HostPlatform, src: Source, f: FetchedIndex)
    ensures w.hash(f.indexBytes) != f.indexDescriptor.digest ==> Follow(w, host, src, f) == Err(DigestMismatch)
    ensures w.hash(f.indexBytes) == f.indexDescriptor.digest ==>
      match w.decodeIndex(f.indexBytes)
      case None => Follow(w, host, src, f) == Err(Malformed)
      case Some(index) =>
        && (index.mediaType != ImageIndex || index.manifests == [] ==> Follow(w, host, src, f) == Err(Malformed))
        && (index.mediaType == ImageIndex && index.manifests != [] &&
            (forall c :: c in index.manifests ==> c.platform != Some(host)) ==>
              Follow(w, host, src, f) == Err(PlatformUnavailable))
  {
  }

  /** What becomes of a child manifest that cannot be fetched, is not the one named, or is no plugin's. */
  lemma ChildRefusals(w: Wire, host: HostPlatform, src: Source, f: FetchedIndex, index: Codec.Index, k: nat)
    requires Commits(w, host, f, index, k)
    ensures match FetchBytes(src, WALK_REQUESTS, index.manifests[k], MAX_BLOB_BYTES)
      case Err(e) => Follow(w, host, src, f) == Err(Fetch(e))
      case Ok(data) =>
        && (w.hash(data) != index.manifests[k].digest ==> Follow(w, host, src, f) == Err(DigestMismatch))
        && (w.hash(data) == index.manifests[k].digest &&
            (w.decodeManifest(data) == None || w.decodeManifest(data).value.config.mediaType != PluginConfig) ==>
              Follow(w, host, src, f) == Err(Malformed))
  {
    HostChildIsFirst(host, index.manifests, k);
  }

  /** The child's manifest, fetched whole and of the digest the index commits to, and its config's type. */
  ghost predicate ReachesChild(w: Wire, host: HostPlatform, src: Source, f: FetchedIndex, m: Manifest)
  {
    exists index, k :: Commits(w, host, f, index, k) && ChildIs(w, src, index.manifests[k], m)
  }

  predicate ChildIs(w: Wire, src: Source, d: Descriptor, m: Manifest)
  {
    match FetchBytes(src, WALK_REQUESTS, d, MAX_BLOB_BYTES)
    case Err(_) => false
    case Ok(data) =>
      w.hash(data) == d.digest && w.decodeManifest(data) == Some(m) && m.config.mediaType == PluginConfig
  }

  lemma ReachedChild(w: Wire, host: HostPlatform, src: Source, f: FetchedIndex, m: Manifest) returns (d: Descriptor)
    requires ReachesChild(w, host, src, f, m)
    ensures ChildOf(w, host, f) == Ok(d) && ChildIs(w, src, d, m)
  {
    var index, k :| Commits(w, host, f, index, k) && ChildIs(w, src, index.manifests[k], m);
    HostChildIsFirst(host, index.manifests, k);
    d := index.manifests[k];
  }

  /** What becomes of a config that cannot be fetched, is not the one named, or cannot be read. */
  lemma ConfigRefusals(w: Wire, host: HostPlatform, src: Source, f: FetchedIndex, m: Manifest)
    requires ReachesChild(w, host, src, f, m)
    ensures match FetchBytes(src, WALK_REQUESTS + 1, m.config, MAX_BLOB_BYTES)
      case Err(e) => Follow(w, host, src, f) == Err(Fetch(e))
      case Ok(data) =>
        && (w.hash(data) != m.config.digest ==> Follow(w, host, src, f) == Err(DigestMismatch))
        && (w.hash(data) == m.config.digest && w.decodeConfig(data) == None ==>
              Follow(w, host, src, f) == Err(Malformed))
  {
    var _ := ReachedChild(w, host, src, f, m);
  }

  /** What becomes of a binary that is not the only one, cannot be fetched, or is not the one named. */
  lemma BinaryRefusals(w: Wire, host: HostPlatform, src: Source, f: FetchedIndex, m: Manifest, data: Bytes)
    requires ReachesChild(w, host, src, f, m)
    requires FetchBytes(src, WALK_REQUESTS + 1, m.config, MAX_BLOB_BYTES) == Ok(data)
    requires w.hash(data) == m.config.digest && w.decodeConfig(data).Some?
    ensures (forall k :: !OnlyBinary(m.layers, k)) ==> Follow(w, host, src, f) == Err(Malformed)
    ensures forall k :: OnlyBinary(m.layers, k) ==>
      match FetchBytes(src, WALK_REQUESTS + 2, m.layers[k], MAX_BINARY_BYTES)
      case Err(e) => Follow(w, host, src, f) == Err(Fetch(e))
      case Ok(binary) =>
        if w.hash(binary) != m.layers[k].digest
        then Follow(w, host, src, f) == Err(DigestMismatch)
        else
          && Follow(w, host, src, f).Ok? && Follow(w, host, src, f).value.binary == binary
          && Follow(w, host, src, f).value.config == w.decodeConfig(data).value
  {
    var _ := ReachedChild(w, host, src, f, m);
    TheBinaryLayerIsOnly(m.layers);
  }

  /** The walk checks the identity again before anything else. */
  lemma IdentityIsRechecked(w: Wire, host: HostPlatform, src: Source, f: FetchedIndex, signer: Identity, pin: string)
    requires pin != "" && pin != signer
    ensures WalkVerifiedIndex(w, host, src, f, signer, pin) == Err(IdentityMismatch)
  {
  }

  /** After the walk the config must name an entrypoint, and the version and plugin that were asked for. */
  lemma FieldsDecide(
      w: Wire, host: HostPlatform, src: Source, f: FetchedIndex, signer: Identity, pin: string, t: Trail)
    requires Follow(w, host, src, f) == Ok(t) && (pin == "" || pin == signer)
    ensures
      if t.config.entrypoint != "" && t.config.version == f.version && t.config.plugin == f.coordinate
      then WalkVerifiedIndex(w, host, src, f, signer, pin) == Ok(VerifiedPlugin(t.config.plugin, t.config.version,
        w.hash(t.indexBytes), signer, t.config.entrypoint, t.config.protocol, host, t.binary))
      else WalkVerifiedIndex(w, host, src, f, signer, pin) == Err(Malformed)
  {
  }

  // ---------------------------------------------------------------------
  // Choosing the signature

  /**
   The errors callers tell apart. An index without a bundle and a bundle without
   content are reported with the same one.
   */
  datatype Sentinel = Unsigned | SignatureInvalid | WrongIdentity

  /**
   A sentinel alone, as for no bundle or a single one; a cut listing; the errors of
   several bundles joined; or the walk's.
   */
  datatype IndexError =
    | Alone(sentinel: Sentinel)
    | Flooded
    | Joined(errors: seq<Sentinel>)
    | Walk(error: WalkError)

  /** `errors.Is`: a sentinel is found alone, wrapped and among joined errors. */
  predicate Is(e: IndexError, sentinel: Sentinel)
  {
    match e
    case Alone(x) => x == sentinel
    case Flooded => sentinel == SignatureInvalid
    case Joined(errors) => sentinel in errors
    case Walk(error) => error == IdentityMismatch && sentinel == WrongIdentity
  }

  /** The signature covers this very digest, and its identity is one that the pin allows. */
  predicate Vouches(sig: Sigstore, pin: string, digest: Digest, bundle: Bytes)
  {
    && bundle != "" && sig(bundle, digest).Some?
    && (pin == "" || sig(bundle, digest).value == pin)
  }

  /** Why a bundle does not vouch for a digest. */
  predicate FailsAs(sig: Sigstore, pin: string, digest: Digest, bundle: Bytes, sentinel: Sentinel)
  {
    match sentinel
    case Unsigned => bundle == ""
    case SignatureInvalid => bundle != "" && sig(bundle, digest) == None
    case WrongIdentity => bundle != "" && sig(bundle, digest).Some? && pin != "" && sig(bundle, digest).value != pin
  }

  /** Bundle `k` vouches for the digest and none before it does. */
  ghost predicate FirstVouching(sig: Sigstore, pin: string, digest: Digest, bundles: seq<Bytes>, k: int)
  {
    && 0 <= k < |bundles| && Vouches(sig, pin, digest, bundles[k])
    && forall i :: 0 <= i < k ==> !Vouches(sig, pin, digest, bundles[i])
  }

  /** What one bundle proves: an acceptable signer, or why not. */
  function JudgeBundle(sig: Sigstore, pin: string, digest: Digest, bundle: Bytes): Result<Identity, Sentinel>
  {
    if bundle == "" then Err(Unsigned)
    else match sig(bundle, digest)
      case None => Err(SignatureInvalid)
      case Some(id) => if PolicyAccepts(pin, id) then Ok(id) else Err(WrongIdentity)
  }

  /** The signer proved by the first bundle that passes both checks. */
  function SelectSigner(sig: Sigstore, pin: string, digest: Digest, bundles: seq<Bytes>): Option<Identity>
  {
    if bundles == [] then None
    else match JudgeBundle(sig, pin, digest, bundles[0])
      case Ok(id) => Some(id)
      case Err(_) => SelectSigner(sig, pin, digest, bundles[1..])
  }

  function BundleErrors(sig: Sigstore, pin: string, digest: Digest, bundles: seq<Bytes>): seq<Sentinel>
  {
    if bundles == [] then []
    else
      BundleErrors(sig, pin, digest, bundles[..|bundles| - 1]) +
      match JudgeBundle(sig, pin, digest, bundles[|bundles| - 1]) case Ok(_) => [] case Err(e) => [e]
  }

  /** What is reported when no bundle passes; a single error is not wrapped. */
  function NoneAccepted(truncated: bool, errors: seq<Sentinel>): IndexError
  {
    if truncated then Flooded else if |errors| == 1 then Alone(errors[0]) else Joined(errors)
  }

  function Verified(w: Wire, sig: Sigstore, host: HostPlatform, src: Source, f: FetchedIndex, pin: string):
    Result<VerifiedPlugin, IndexError>
  {
    var digest := f.indexDescriptor.digest;
    if f.bundles == [] then Err(Alone(Unsigned))
    else match SelectSigner(sig, pin, digest, f.bundles)
      case Some(id) =>
        (match WalkVerifiedIndex(w, host, src, f, id, pin)
         case Ok(v) => Ok(v)
         case Err(e) => Err(Walk(e)))
      case None =>
        Err(NoneAccepted(f.truncated, BundleErrors(sig, pin, digest, f.bundles)))
  }

  /** The loop over the bundles, and the walk with the first that passes. */
  method TryBundles(w: Wire, sig: Sigstore, host: HostPlatform, src: Source, f: FetchedIndex, pin: string)
    returns (r: Result<VerifiedPlugin, IndexError>)
    ensures r == Verified(w, sig, host, src, f, pin)
  {
    var digest := f.indexDescriptor.digest;
    if |f.bundles| == 0 {
      return Err(Alone(Unsigned));
    }
    var bundleErrs: seq<Sentinel> := [];
    for i := 0 to |f.bundles|
      invariant bundleErrs == BundleErrors(sig, pin, digest, f.bundles[..i])
      invariant SelectSigner(sig, pin, digest, f.bundles) == SelectSigner(sig, pin, digest, f.bundles[i..])
    {
      var bundle := f.bundles[i];
      assert f.bundles[..i+1][..i] == f.bundles[..i];
      if bundle == "" {
        bundleErrs := bundleErrs + [Unsigned];
        continue;
      }
      var verified := sig(bundle, digest);
      if verified.None? {
        bundleErrs := bundleErrs + [SignatureInvalid];
        continue;
      }
      if !PolicyAccepts(pin, verified.value) {
        bundleErrs := bundleErrs + [WrongIdentity];
        continue;
      }
      var walked := WalkVerifiedIndex(w, host, src, f, verified.value, pin);
      return match walked case Ok(v) => Ok(v) case Err(e) => Err(Walk(e));
    }
    assert f.bundles[..|f.bundles|] == f.bundles;
    if f.truncated {
      return Err(Flooded);
    }
    if |bundleErrs| == 1 {
      return Err(Alone(bundleErrs[0]));
    }
    r := Err(Joined(bundleErrs));
  }

  // ---------------------------------------------------------------------
  // What the choice means

  lemma JudgedAs(sig: Sigstore, pin: string, digest: Digest, bundle: Bytes)
    ensures Vouches(sig, pin, digest, bundle) ==> JudgeBundle(sig, pin, digest, bundle) == Ok(sig(bundle, digest).value)
    ensures !Vouches(sig, pin, digest, bundle) ==> JudgeBundle(sig, pin, digest, bundle).Err?
    ensures forall e :: JudgeBundle(sig, pin, digest, bundle) == Err(e) <==> FailsAs(sig, pin, digest, bundle, e)
  {
  }

  lemma {:induction false} SelectSignerIsFirst(sig: Sigstore, pin: string, digest: Digest, bundles: seq<Bytes>, k: int)
    requires FirstVouching(sig, pin, digest, bundles, k)
    ensures SelectSigner(sig, pin, digest, bundles) == sig(bundles[k], digest)
  {
    if k > 0 {
      assert !Vouches(sig, pin, digest, bundles[0]);
      forall i | 0 <= i < k - 1 ensures !Vouches(sig, pin, digest, bundles[1..][i]) {
        assert bundles[1..][i] == bundles[i + 1];
      }
      SelectSignerIsFirst(sig, pin, digest, bundles[1..], k - 1);
    }
  }

  /** No signer is selected exactly when no bundle vouches for the digest. */
  lemma {:induction false} NoSignerIff(sig: Sigstore, pin: string, digest: Digest, bundles: seq<Bytes>)
    ensures SelectSigner(sig, pin, digest, bundles).None? <==>
      forall b :: b in bundles ==> !Vouches(sig, pin, digest, b)
  {
    if bundles != [] {
      assert bundles == [bundles[0]] + bundles[1..];
      JudgedAs(sig, pin, digest, bundles[0]);
      NoSignerIff(sig, pin, digest, bundles[1..]);
    }
  }

  /** And when one is, it is that of the first bundle that does. */
  lemma {:induction false} FirstOfSelected(sig: Sigstore, pin: string, digest: Digest, bundles: seq<Bytes>)
      returns (k: nat)
    requires SelectSigner(sig, pin, digest, bundles).Some?
    ensures FirstVouching(sig, pin, digest, bundles, k)
    ensures sig(bundles[k], digest) == SelectSigner(sig, pin, digest, bundles)
  {
    if Vouches(sig, pin, digest, bundles[0]) {
      k := 0;
    } else {
      var rest := FirstOfSelected(sig, pin, digest, bundles[1..]);
      k := rest + 1;
      forall i | 0 <= i < k ensures !Vouches(sig, pin, digest, bundles[i]) {
        assert i > 0 ==> bundles[i] == bundles[1..][i - 1];
      }
    }
  }

  /**
   Only a signature over the digest of this index lets an install through: what
   is accepted carries the identity of the first bundle that vouches for it.
   */
  lemma AcceptedIsVouchedFor(w: Wire, sig: Sigstore, host: HostPlatform, src: Source, f: FetchedIndex, pin: string)
      returns (k: nat)
    requires Verified(w, sig, host, src, f, pin).Ok?
    ensures FirstVouching(sig, pin, f.indexDescriptor.digest, f.bundles, k)
    ensures sig(f.bundles[k], f.indexDescriptor.digest) ==
      Some(Verified(w, sig, host, src, f, pin).value.signerIdentity)
  {
    k := FirstOfSelected(sig, pin, f.indexDescriptor.digest, f.bundles);
  }

  /** With a bundle that vouches for the digest the walk alone decides, under the first one's identity. */
  lemma FirstVouchingDecides(
      w: Wire, sig: Sigstore, host: HostPlatform, src: Source, f: FetchedIndex, pin: string, k: nat)
    requires FirstVouching(sig, pin, f.indexDescriptor.digest, f.bundles, k)
    ensures Verified(w, sig, host, src, f, pin) ==
      match WalkVerifiedIndex(w, host, src, f, sig(f.bundles[k], f.indexDescriptor.digest).value, pin)
      case Ok(v) => Ok(v) case Err(e) => Err(Walk(e))
  {
    SelectSignerIsFirst(sig, pin, f.indexDescriptor.digest, f.bundles, k);
  }

  lemma {:induction false} BundleErrorsMembers(
      sig: Sigstore, pin: string, digest: Digest, bundles: seq<Bytes>, e: Sentinel)
    ensures e in BundleErrors(sig, pin, digest, bundles) <==>
      exists b :: b in bundles && FailsAs(sig, pin, digest, b, e)
  {
    if bundles != [] {
      var init, last := bundles[..|bundles| - 1], bundles[|bundles| - 1];
      BundleErrorsMembers(sig, pin, digest, init, e);
      JudgedAs(sig, pin, digest, last);
      assert bundles == init + [last];
      assert FailsAs(sig, pin, digest, last, e) ==> last in bundles;
    }
  }

  /**
   Which sentinels a rejection before the walk is found to be: none but that of
   an invalid signature for a cut listing, and otherwise those of its bundles.
   */
  lemma RejectionIsIff(
      w: Wire, sig: Sigstore, host: HostPlatform, src: Source, f: FetchedIndex, pin: string, sentinel: Sentinel)
    requires forall b :: b in f.bundles ==> !Vouches(sig, pin, f.indexDescriptor.digest, b)
    ensures var r := Verified(w, sig, host, src, f, pin);
      r.Err? && !r.error.Walk? && (Is(r.error, sentinel) <==>
        if f.bundles == [] then sentinel == Unsigned
        else if f.truncated then sentinel == SignatureInvalid
        else exists b :: b in f.bundles && FailsAs(sig, pin, f.indexDescriptor.digest, b, sentinel))
  {
    NoSignerIff(sig, pin, f.indexDescriptor.digest, f.bundles);
    BundleErrorsMembers(sig, pin, f.indexDescriptor.digest, f.bundles, sentinel);
  }

  /** A single bundle's error is the one reported. */
  lemma LoneErrorIsReported(
      w: Wire, sig: Sigstore, host: HostPlatform, src: Source, f: FetchedIndex, pin: string, b: Bytes, e: Sentinel)
    requires f.bundles == [b] && !f.truncated && FailsAs(sig, pin, f.indexDescriptor.digest, b, e)
    ensures Verified(w, sig, host, src, f, pin) == Err(Alone(e))
  {
    assert [b][1..] == [] && [b][..0] == [];
    var digest := f.indexDescriptor.digest;
    assert SelectSigner(sig, pin, digest, [b]) == SelectSigner(sig, pin, digest, []) == None;
    assert BundleErrors(sig, pin, digest, [b]) == BundleErrors(sig, pin, digest, []) + [e] == [e];
  }

  lemma {:induction false} AllErrorsKept(sig: Sigstore, pin: string, digest: Digest, bundles: seq<Bytes>)
    requires forall b :: b in bundles ==> !Vouches(sig, pin, digest, b)
    ensures var errors := BundleErrors(sig, pin, digest, bundles);
      |errors| == |bundles| && forall i :: 0 <= i < |bundles| ==>
        FailsAs(sig, pin, digest, bundles[i], errors[i])
  {
    if bundles != [] {
      var init, last := bundles[..|bundles| - 1], bundles[|bundles| - 1];
      assert forall b :: b in init ==> b in bundles;
      AllErrorsKept(sig, pin, digest, init);
      assert last in bundles;
    }
  }

  /** `Verifier.Index`: try the bundles in order, walk with the first that passes. */
  method Index(w: Wire, sig: Sigstore, host: HostPlatform, src: Source, f: FetchedIndex, pin: string)
    returns (r: Result<VerifiedPlugin, IndexError>)
    ensures r == Verified(w, sig, host, src, f, pin)
    ensures r.Ok? ==> exists k ::
      && FirstVouching(sig, pin, f.indexDescriptor.digest, f.bundles, k)
      && sig(f.bundles[k], f.indexDescriptor.digest) == Some(r.value.signerIdentity)
    ensures (forall b :: b in f.bundles ==> !Vouches(sig, pin, f.indexDescriptor.digest, b)) ==>
      r.Err? && !r.error.Walk?
  {
    r := TryBundles(w, sig, host, src, f, pin);
    if r.Ok? {
      var _ := AcceptedIsVouchedFor(w, sig, host, src, f, pin);
    } else {
      NoSignerIff(sig, pin, f.indexDescriptor.digest, f.bundles);
    }
  }
}
