/**
 A world in which two overlapping first installs record two signers: the
 hypotheses of `Overlap` are met, from idle installs on, by concrete arguments,
 documents and answers. The hash is the identity, so every digest names its content.
 */
module Witness {
  import opened Wrappers
  import opened Codec
  import opened Coordinate
  import opened Pull
  import opened Verify
  import opened Assemble
  import Pipeline
  import Install
  import Overlap
  import Preflight
  import M = Manifest

  const COORDINATE := "ns/id"
  const HOST: HostPlatform := Platform("linux", "amd64")
  const BINARY := PlatformBinary("linux", "amd64", "bin", "tool")
  const FILES: Files := map["bin" := "b"]

  /** A registry that serves under every digest what the digest says. */
  function Everything(): Source
  {
    (n: nat, d: Descriptor) => Stream(d.digest, false)
  }

  /** A signature store that reads the signer off the bundle. */
  function OffTheBundle(): Sigstore
  {
    (bundle: Bytes, digest: Digest) => if bundle == "" then None else Some(bundle)
  }

  function Published(version: string): Params
  {
    Params(COORDINATE, COORDINATE, version, "MIT", [BINARY], [])
  }

  /** A hub that knows one version of the plugin and declares no signer. */
  function Detail(version: string): PluginDetail
  {
    PluginDetail("ns", "id", version, "", [Release(version, "")])
  }

  /** A manifest of one layer, without a subject. */
  function Plain(config: Descriptor, layer: Descriptor): Manifest
  {
    Manifest(ImageManifest, config, [layer], None, None)
  }

  /** A registry may list it all the same. */
  function Referrer(signer: string): Manifest
  {
    Plain(Descriptor(PluginConfig, "", 0, None), Descriptor(SigstoreBundle, signer, |signer|, None))
  }

  function ReferrerDescriptor(w: Wire, signer: string): Descriptor
  {
    Descriptor(ImageManifest, w.encodeManifest(Referrer(signer)), |w.encodeManifest(Referrer(signer))|, None)
  }

  function Index(w: Wire, version: string): Descriptor
  {
    Assembled(w, Published(version), FILES).index.Descriptor()
  }

  /** The published index, signed once. */
  function Signed(w: Wire, version: string, signer: string): Registry
  {
    Registry(_ => Some(Index(w, version)), Everything(), _ => Listed([ReferrerDescriptor(w, signer)]))
  }

  /** A lawful wire under which every digest is the content it names. */
  ghost predicate Transparent(w: Wire)
  {
    Lawful(w) && forall b: Bytes :: w.hash(b) == b
  }

  /** The documents stay within the limits. */
  ghost predicate Small(w: Wire, version: string, signer: string)
  {
    && |ConfigBlob(w, Published(version), BINARY).data| <= MAX_BLOB_BYTES
    && |ManifestBlob(w, Published(version), FILES, BINARY).data| <= MAX_BLOB_BYTES
    && |Assembled(w, Published(version), FILES).index.data| <= MAX_BLOB_BYTES
    && |w.encodeManifest(Referrer(signer))| <= MAX_BLOB_BYTES && |signer| <= MAX_BLOB_BYTES
  }

  lemma Served(w: Wire, n: nat, d: Descriptor, limit: nat)
    requires Transparent(w) && d.size == |d.digest| <= limit
    ensures FetchBytes(Everything(), n, d, limit) == Ok(d.digest)
    ensures FetchChecked(w, Everything(), n, d, limit) == Ok(d.digest)
  {
  }

  /** The signature is discovered. */
  lemma Discovered(w: Wire, version: string, signer: string)
    requires Transparent(w) && Small(w, version, signer)
    ensures Discover(w, Everything(), 1, Listed([ReferrerDescriptor(w, signer)])) == Ok(Discovery([signer], false))
  {
    var refs := [ReferrerDescriptor(w, signer)];
    var m := Referrer(signer);
    Served(w, 1, refs[0], MAX_BLOB_BYTES);
    assert w.decodeManifest(w.encodeManifest(m)) == Some(m);
    Served(w, 2, m.layers[0], MAX_BLOB_BYTES);
    var fs := Findings(w, Everything(), 1, Inspected(refs));
    assert Inspected(refs) == refs && fs[0] == Usable(signer);
    assert fs == [Usable(signer)] && fs[..0] == [];
    assert Bundles(fs[..0]) == [] && [] + [signer] == [signer];
    assert Bundles(fs) == [signer];
    assert Broken !in fs;
  }

  function Fetched(w: Wire, version: string, signer: string): FetchedIndex
  {
    FetchedIndex(COORDINATE, version, Index(w, version), Assembled(w, Published(version), FILES).index.data, [signer],
      false)
  }

  lemma Pulled(w: Wire, version: string, signer: string)
    requires Transparent(w) && Small(w, version, signer)
    ensures PullIndex(w, Signed(w, version, signer), COORDINATE, version) == Ok(Fetched(w, version, signer))
  {
    Served(w, 0, Index(w, version), MAX_BLOB_BYTES);
    Discovered(w, version, signer);
  }

  /** What the install is accepted as. */
  function Accepted(w: Wire, version: string, signer: Identity): VerifiedPlugin
  {
    VerifiedPlugin(COORDINATE, version, Index(w, version).digest, signer, "tool", DEFAULT_PROTOCOL, HOST, "b")
  }

  lemma Walked(w: Wire, version: string, signer: string)
    requires Transparent(w) && Small(w, version, signer)
    ensures Follow(w, HOST, Everything(), Fetched(w, version, signer)) ==
      Ok(Pipeline.PublishedTrail(w, Published(version), FILES, BINARY))
  {
    var p, f := Published(version), Fetched(w, version, signer);
    Pipeline.ChildOfPublished(w, p, FILES, HOST, f);
    Pipeline.PublishedChain(w, p, FILES, BINARY);
    Served(w, WALK_REQUESTS, ChildDescriptor(w, p, FILES, BINARY), MAX_BLOB_BYTES);
    Served(w, WALK_REQUESTS + 1, ConfigBlob(w, p, BINARY).Descriptor(), MAX_BLOB_BYTES);
    Served(w, WALK_REQUESTS + 2, BinaryBlob(w, FILES, BINARY).Descriptor(), MAX_BINARY_BYTES);
    ChainIsFollowed(w, HOST, Everything(), f, Pipeline.PublishedTrail(w, p, FILES, BINARY),
      ManifestOf(ConfigBlob(w, p, BINARY), BinaryBlob(w, FILES, BINARY)), BinaryBlob(w, FILES, BINARY).Descriptor());
  }

  lemma IsAccepted(w: Wire, version: string, signer: Identity)
    requires Transparent(w) && Small(w, version, signer)
    ensures Verified(w, OffTheBundle(), HOST, Everything(), Fetched(w, version, signer), "") ==
      Ok(Accepted(w, version, signer))
  {
    Walked(w, version, signer);
    assert SelectSigner(OffTheBundle(), "", Index(w, version).digest, [signer]) == Some(signer);
  }

  // ---------------------------------------------------------------------
  // Lengths in the concrete encoding

  lemma {:induction false} StringLength(s: string)
    ensures |EncString(s)| == 2 * |s| + 1
  {
    if s != "" {
      StringLength(s[1..]);
    }
  }

  function PlatformLength(o: Option<Platform>): nat
  {
    match o case None => 1 case Some(p) => 2 * |p.os| + 2 * |p.arch| + 4
  }

  lemma PairLength<A, B>(f: Format<A>, g: Format<B>, p: (A, B))
    ensures |PairOf(f, g).enc(p)| == |f.enc(p.0)| + |g.enc(p.1)|
  {
  }

  lemma SingleLength<T>(f: Format<T>, x: T)
    ensures |ListOf(f).enc([x])| == |f.enc(x)| + 2 && |ListOf(f).enc([])| == 1
  {
    assert [x][1..] == [];
    assert EncList(f.enc, [x]) == "+" + (f.enc(x) + EncList(f.enc, []));
  }

  lemma PlatformsLength(o: Option<Platform>)
    ensures |ListOf(PlatformFormat).enc(FromOption(o))| == PlatformLength(o)
  {
    var any := Platform("", "");
    if o.Some? {
      StringLength(o.value.os);
      StringLength(o.value.arch);
      PairLength(Str, Str, (o.value.os, o.value.arch));
    }
    SingleLength(PlatformFormat, if o.Some? then o.value else any);
  }

  lemma KindLength(m: MediaType)
    requires !m.Other?
    ensures |Kind.enc(m)| == 3
  {
    StringLength(MediaTypeName(m));
  }

  lemma IntLength(n: nat)
    ensures |Int.enc(n)| == 2 * n + 1
  {
    StringLength(Digits(n));
  }

  lemma DescriptorEncoding(d: Descriptor)
    ensures DescriptorFormat.enc(d) ==
      PairOf(PairOf(Kind, Str), PairOf(Int, ListOf(PlatformFormat))).enc(DescriptorFields(d))
  {
  }

  lemma DescriptorLength(d: Descriptor)
    requires d.size >= 0 && !d.mediaType.Other?
    ensures |DescriptorFormat.enc(d)| == 2 * |d.digest| + 2 * d.size + 5 + PlatformLength(d.platform)
  {
    DescriptorEncoding(d);
    var t := DescriptorFields(d);
    PairLength(PairOf(Kind, Str), PairOf(Int, ListOf(PlatformFormat)), t);
    PairLength(Kind, Str, t.0);
    PairLength(Int, ListOf(PlatformFormat), t.1);
    KindLength(d.mediaType);
    StringLength(d.digest);
    IntLength(d.size);
    PlatformsLength(d.platform);
  }

  lemma ManifestEncoding(m: Manifest)
    ensures ManifestFormat.enc(m) == PairOf(ImageFormat, ReferenceFormat).enc(ManifestFields(m))
  {
  }

  lemma ManifestLength(config: Descriptor, layer: Descriptor)
    ensures |ManifestFormat.enc(Plain(config, layer))| ==
      |DescriptorFormat.enc(config)| + |DescriptorFormat.enc(layer)| + 7
  {
    ManifestEncoding(Plain(config, layer));
    PairLength(ImageFormat, ReferenceFormat, ManifestFields(Plain(config, layer)));
    ImageLength(config, layer);
    NoReferenceLength(config);
  }

  lemma ImageLength(config: Descriptor, layer: Descriptor)
    ensures |ImageFormat.enc((ImageManifest, (config, [layer])))| ==
      |DescriptorFormat.enc(config)| + |DescriptorFormat.enc(layer)| + 5
  {
    PairLength(Kind, PairOf(DescriptorFormat, ListOf(DescriptorFormat)), (ImageManifest, (config, [layer])));
    PairLength(DescriptorFormat, ListOf(DescriptorFormat), (config, [layer]));
    KindLength(ImageManifest);
    SingleLength(DescriptorFormat, layer);
  }

  lemma NoReferenceLength(any: Descriptor)
    ensures |ReferenceFormat.enc(([], []))| == 2
  {
    PairLength(ListOf(Kind), ListOf(DescriptorFormat), ([], []));
    SingleLength(Kind, ImageManifest);
    SingleLength(DescriptorFormat, any);
  }

  lemma IndexEncoding(x: Codec.Index)
    ensures IndexFormat.enc(x) == PairOf(Kind, ListOf(DescriptorFormat)).enc((x.mediaType, x.manifests))
  {
  }

  lemma IndexLength(child: Descriptor)
    ensures |IndexFormat.enc(Codec.Index(ImageIndex, [child]))| == |DescriptorFormat.enc(child)| + 5
  {
    IndexEncoding(Codec.Index(ImageIndex, [child]));
    PairLength(Kind, ListOf(DescriptorFormat), (ImageIndex, [child]));
    KindLength(ImageIndex);
    SingleLength(DescriptorFormat, child);
  }

  lemma ConfigEncoding(c: Config)
    ensures ConfigFormat.enc(c) == PairOf(NamesFormat, RestFormat).enc(ConfigFields(c))
  {
  }

  lemma ConfigLength(c: Config)
    requires c.evaluates == []
    ensures |ConfigFormat.enc(c)| ==
      2 * (|c.plugin| + |c.version| + |c.license| + |c.platform.os| + |c.platform.arch| + |c.entrypoint| +
        |c.protocol|) + 8
  {
    ConfigEncoding(c);
    var t := ConfigFields(c);
    PairLength(NamesFormat, RestFormat, t);
    NamesLength(c.plugin, c.version, c.license, c.platform);
    RestLength(c.entrypoint, c.protocol);
  }

  lemma NamesLength(plugin: string, version: string, license: string, platform: Platform)
    ensures |NamesFormat.enc(((plugin, version), (license, platform)))| ==
      2 * (|plugin| + |version| + |license| + |platform.os| + |platform.arch|) + 5
  {
    PairLength(PairOf(Str, Str), PairOf(Str, PlatformFormat), ((plugin, version), (license, platform)));
    PairLength(Str, Str, (plugin, version));
    PairLength(Str, PlatformFormat, (license, platform));
    PairLength(Str, Str, (platform.os, platform.arch));
    StringLength(plugin);
    StringLength(version);
    StringLength(license);
    StringLength(platform.os);
    StringLength(platform.arch);
  }

  lemma RestLength(entrypoint: string, protocol: string)
    ensures |RestFormat.enc(((entrypoint, protocol), []))| == 2 * (|entrypoint| + |protocol|) + 3
  {
    PairLength(PairOf(Str, Str), ListOf(EvaluateFormat), ((entrypoint, protocol), []));
    PairLength(Str, Str, (entrypoint, protocol));
    StringLength(entrypoint);
    StringLength(protocol);
    SingleLength(EvaluateFormat, Evaluate("", "", []));
  }

  function DescriptorSize(d: Descriptor): int
  {
    2 * |d.digest| + 2 * d.size + 5 + PlatformLength(d.platform)
  }

  function ConfigSize(c: Config): int
  {
    2 * (|c.plugin| + |c.version| + |c.license| + |c.platform.os| + |c.platform.arch|)
    + 2 * (|c.entrypoint| + |c.protocol|) + 9
  }

  predicate Sized(d: Descriptor)
  {
    d.size >= 0 && !d.mediaType.Other?
  }

  /** How long the documents are that this encoding gives. */
  ghost predicate Measured(w: Wire)
  {
    MeasuredConfigs(w) && MeasuredManifests(w) && MeasuredIndexes(w)
  }

  ghost predicate MeasuredConfigs(w: Wire)
  {
    forall c: Config :: c.evaluates == [] ==> |w.encodeConfig(c)| == ConfigSize(c)
  }

  ghost predicate MeasuredManifests(w: Wire)
  {
    forall config, layer :: Sized(config) && Sized(layer) ==>
      |w.encodeManifest(Plain(config, layer))| == DescriptorSize(config) + DescriptorSize(layer) + 8
  }

  ghost predicate MeasuredIndexes(w: Wire)
  {
    forall x: Codec.Index :: x.mediaType == ImageIndex && |x.manifests| == 1 && Sized(x.manifests[0]) ==>
      |w.encodeIndex(x)| == DescriptorSize(x.manifests[0]) + 6
  }

  // ---------------------------------------------------------------------
  // Over any such wire

  lemma NoEvaluates()
    ensures Canonical.Canonical([]) == []
  {
    assert Canonical.Cleaned([]) == [];
  }

  lemma DocumentsAreSmall(w: Wire, version: string, signer: string)
    requires Measured(w) && Transparent(w) && |version| == 1 && |signer| <= 100
    ensures Small(w, version, signer)
  {
    var p := Published(version);
    NoEvaluates();
    var config, binary, m := ConfigBlob(w, p, BINARY), BinaryBlob(w, FILES, BINARY), ManifestBlob(w, p, FILES, BINARY);
    assert |config.data| == 67 && |binary.data| == 1;
    assert ManifestOf(config, binary) == Plain(config.Descriptor(), binary.Descriptor());
    assert |m.data| == DescriptorSize(config.Descriptor()) + DescriptorSize(binary.Descriptor()) + 8;
    IndexIsSmall(w, version);
    assert |w.encodeManifest(Referrer(signer))| <= 1000;
  }

  ghost predicate AllFit(w: Wire)
  {
    forall version, signer :: |version| == 1 && |signer| <= 100 ==> Small(w, version, signer)
  }

  lemma DocumentsFit(w: Wire)
    requires Measured(w) && Transparent(w)
    ensures AllFit(w)
  {
    forall version: string, signer: string | |version| == 1 && |signer| <= 100 ensures Small(w, version, signer) {
      DocumentsAreSmall(w, version, signer);
    }
  }

  lemma IndexIsSmall(w: Wire, version: string)
    requires Measured(w) && Transparent(w) && |ManifestBlob(w, Published(version), FILES, BINARY).data| <= 1000
    ensures |Assembled(w, Published(version), FILES).index.data| <= 10_000
  {
    var x := IndexOf(w, Published(version), FILES);
    assert x.manifests[0] == ChildDescriptor(w, Published(version), FILES, BINARY);
  }

  function World(w: Wire): Install.Env
  {
    Install.Env(w, OffTheBundle(), HOST)
  }

  lemma ArgumentIsRead(version: string)
    requires version == "1" || version == "2"
    ensures ParseCoordinate(COORDINATE + "@" + version) == Ok(Parsed("ns", "id", version))
  {
    NameIsRead(version);
    ParsedName(COORDINATE, version);
    assert TrimSpace(version) == version;
    ParsePinned(COORDINATE, version);
  }

  lemma NameIsRead(version: string)
    ensures ParseParts(COORDINATE, version) == Ok(Parsed("ns", "id", version))
  {
    CutAround("ns", "id", '/');
    assert COORDINATE == "ns" + ['/'] + "id";
  }

  lemma IsOffered(w: Wire, version: string, signer: Identity)
    requires Transparent(w) && Small(w, version, signer) && (version == "1" || version == "2")
    ensures Overlap.Offered(World(w), COORDINATE + "@" + version, COORDINATE, Detail(version),
      Signed(w, version, signer),
                            Accepted(w, version, signer))
  {
    ArgumentIsRead(version);
    IsReleased(version);
    Pulled(w, version, signer);
    IsAccepted(w, version, signer);
    MayBeWritten(version);
    Overlap.OfferedBy(World(w), COORDINATE + "@" + version, COORDINATE, Detail(version), Signed(w, version, signer),
      Accepted(w, version, signer), Parsed("ns", "id", version), Release(version, ""), Fetched(w, version, signer));
  }

  lemma IsReleased(version: string)
    requires version != ""
    ensures Detail(version).Coordinate() == COORDINATE
    ensures ResolveRelease(Detail(version), version) == Ok(Release(version, ""))
  {
  }

  lemma MayBeWritten(version: string)
    requires version == "1" || version == "2"
    ensures ValidSegment("tool") && Install.ValidVersionDir(version)
  {
  }

  predicate SignedBy(m: M.Plugins, c: string, version: string, signer: Identity)
  {
    M.FindVersion(m, c, version).Some? && M.FindVersion(m, c, version).value.signerIdentity == signer
  }

  /** A version and a signer it is offered under. */
  datatype Offer = Offer(arg: string, version: string, signer: Identity)

  /** What is claimed of the run: from idle installs of two versions to their entries under two signers. */
  ghost predicate TwoSigners(env: Install.Env, c: string, states: seq<Install.State>)
  {
    RecordsOffers(env, c, OfferOf(c, "1", "alice"), OfferOf(c, "2", "bob"), states)
  }

  function OfferOf(c: string, version: string, signer: Identity): Offer
  {
    Offer(c + "@" + version, version, signer)
  }

  ghost predicate RecordsOffers(env: Install.Env, c: string, a: Offer, b: Offer, states: seq<Install.State>)
  {
    && Install.Run(env, states) && states[0] == Install.State(map[], [a.arg, b.arg], [Install.Idle, Install.Idle])
    && var last := states[|states| - 1];
    && last.jobs == [Install.Finished(true), Install.Finished(true)] && !Overlap.OneSigner(last.plugins, c)
    && SignedBy(last.plugins, c, a.version, a.signer) && SignedBy(last.plugins, c, b.version, b.signer)
  }

  ghost predicate Offers(env: Install.Env, c: string, o: Offer)
  {
    exists detail, registry, v :: OffersAs(env, c, o, detail, registry, v)
  }

  ghost predicate OffersAs(
    env: Install.Env, c: string, o: Offer, detail: PluginDetail, registry: Registry, v: VerifiedPlugin)
  {
    Overlap.Offered(env, o.arg, c, detail, registry, v) && v.version == o.version && v.signerIdentity == o.signer
  }

  ghost predicate AllOffered(env: Install.Env, c: string, offers: set<Offer>)
  {
    forall o :: o in offers ==> Offers(env, c, o)
  }

  /** Versions 1 and 2 are to be had under alice and bob. */
  lemma WorldOffers(w: Wire)
    requires Transparent(w) && AllFit(w)
    ensures AllOffered(World(w), COORDINATE, {OfferOf(COORDINATE, "1", "alice"), OfferOf(COORDINATE, "2", "bob")})
  {
    forall o | o in {OfferOf(COORDINATE, "1", "alice"), OfferOf(COORDINATE, "2", "bob")}
      ensures Offers(World(w), COORDINATE, o)
    {
      WorldOffersOne(w, o.version, o.signer);
    }
  }

  lemma WorldOffersOne(w: Wire, version: string, signer: Identity)
    requires Transparent(w) && AllFit(w) && (version == "1" || version == "2") && |signer| <= 100
    ensures Offers(World(w), COORDINATE, OfferOf(COORDINATE, version, signer))
  {
    assert Small(w, version, signer);
    IsOffered(w, version, signer);
    assert OffersAs(World(w), COORDINATE, OfferOf(COORDINATE, version, signer), Detail(version),
      Signed(w, version, signer), Accepted(w, version, signer));
  }

  lemma RecordedFor(env: Install.Env, c: string, a: Offer, b: Offer) returns (states: seq<Install.State>)
    requires AllOffered(env, c, {a, b}) && a.version != b.version && a.signer != b.signer
    ensures RecordsOffers(env, c, a, b, states)
  {
    assert Offers(env, c, a) && Offers(env, c, b);
    var detail1, registry1, v1 :| OffersAs(env, c, a, detail1, registry1, v1);
    var detail2, registry2, v2 :| OffersAs(env, c, b, detail2, registry2, v2);
    states := Overlap.OverlappingFirstInstallsRecordTwoSigners(env, map[], c, a.arg, b.arg, detail1, registry1, v1,
      detail2, registry2, v2);
  }

  // ---------------------------------------------------------------------
  // The concrete world

  function TheWire(): Wire
  {
    ConcreteWire((b: Bytes) => b)
  }

  lemma TheWireIsTransparent()
    ensures Transparent(TheWire())
  {
    ConcreteWireIsLawful((b: Bytes) => b);
  }

  lemma ConfigsAreMeasured()
    ensures MeasuredConfigs(TheWire())
  {
    forall c: Config | c.evaluates == [] ensures |Document('C', ConfigFormat, c)| == ConfigSize(c) {
      ConfigLength(c);
    }
  }

  lemma ManifestsAreMeasured()
    ensures MeasuredManifests(TheWire())
  {
    forall config: Descriptor, layer: Descriptor | Sized(config) && Sized(layer)
      ensures |TheWire().encodeManifest(Plain(config, layer))| == DescriptorSize(config) + DescriptorSize(layer) + 8
    {
      ManifestIsMeasured(config, layer);
    }
  }

  lemma ManifestIsMeasured(config: Descriptor, layer: Descriptor)
    requires Sized(config) && Sized(layer)
    ensures |Document('M', ManifestFormat, Plain(config, layer))| == DescriptorSize(config) + DescriptorSize(layer) + 8
  {
    ManifestLength(config, layer);
    DescriptorLength(config);
    DescriptorLength(layer);
  }

  lemma IndexesAreMeasured()
    ensures MeasuredIndexes(TheWire())
  {
    forall x: Codec.Index | x.mediaType == ImageIndex && |x.manifests| == 1 && Sized(x.manifests[0])
      ensures |Document('I', IndexFormat, x)| == DescriptorSize(x.manifests[0]) + 6
    {
      IndexLength(x.manifests[0]);
      DescriptorLength(x.manifests[0]);
      assert x == Codec.Index(ImageIndex, [x.manifests[0]]);
    }
  }

  lemma TheWireIsMeasured()
    ensures Measured(TheWire())
  {
    ConfigsAreMeasured();
    ManifestsAreMeasured();
    IndexesAreMeasured();
  }

  /**
   From an empty manifest and two idle installs, of "ns/id@1" and "ns/id@2": a
   complete run after which the coordinate has an entry signed by alice and one signed by bob.
   */
  lemma TwoSignersAreRecorded() returns (states: seq<Install.State>)
    ensures TwoSigners(World(TheWire()), COORDINATE, states)
  {
    TheWireIsTransparent();
    TheWireIsMeasured();
    DocumentsFit(TheWire());
    WorldOffers(TheWire());
    states := RecordedFor(World(TheWire()), COORDINATE, OfferOf(COORDINATE, "1", "alice"),
      OfferOf(COORDINATE, "2", "bob"));
  }

  // ---------------------------------------------------------------------
  // A plugin field pinned with "@"

  const PINNED := Preflight.Service("ns/id@1", "")

  /** A complete run over one install, after a preflight for the one service, and the plan's input afterwards. */
  ghost predicate PinnedInVain(env: Install.Env, states: seq<Install.State>)
  {
    && Preflight.PoolSucceeded(env, states) && (forall k :: 0 <= k < |states| ==> Preflight.HubTidy(states[k]))
    && states[0] == Install.State(map[], [Preflight.ArgOf(PINNED)], [Install.Idle])
    && Preflight.MissingList(map["s" := PINNED], map[], [Preflight.ArgOf(PINNED)])
    && PlanFails(states[|states| - 1].plugins)
  }

  ghost predicate PlanFails(m: M.Plugins)
  {
    M.FindVersion(m, COORDINATE, "1").Some? && !Preflight.AllResolve(map["s" := PINNED], M.Current(m))
  }

  lemma OneAndItsName(s: Install.State)
    requires s.args == [Preflight.ArgOf(PINNED)] && |s.jobs| == 1
    requires Overlap.Carries(s.jobs[0], Detail("1"), Release("1", ""))
    ensures Preflight.HubEchoes(s) && Preflight.HubTidy(s)
  {
    PinnedArgument();
    ArgumentIsRead("1");
    assert TrimSpace("1") == "1" && '@' !in "1";
  }

  lemma PinnedArgument()
    ensures Preflight.ArgOf(PINNED) == COORDINATE + "@" + "1"
  {
  }

  lemma PinnedIsAsked()
    ensures Preflight.MissingList(map["s" := PINNED], map[], [Preflight.ArgOf(PINNED)])
  {
    var services := map["s" := PINNED];
    assert services["s"] == PINNED && !Preflight.Runnable(map[], PINNED);
    assert Preflight.Asks(services, map[], "s", Preflight.ArgOf(PINNED));
    assert Preflight.Answered(services, map[], [Preflight.ArgOf(PINNED)], "s");
  }

  /** The entry is under the name without the pin. */
  lemma EntryIsNotPinned(w: Wire)
    ensures PlanFails(M.Added(map[], Install.EntryOf(Detail("1"), Accepted(w, "1", "alice"))))
  {
    var services := map["s" := PINNED];
    var e := Install.EntryOf(Detail("1"), Accepted(w, "1", "alice"));
    var m := M.Added(map[], e);
    assert e.name == COORDINATE && e.version == "1";
    assert |COORDINATE| == 5 && |PINNED.plugin| == 7;
    assert !Preflight.Resolves(m, PINNED.plugin, "");
    assert Preflight.VersionOf(PINNED) == "";
    assert "s" in services && services["s"] == PINNED;
  }

  lemma FinishedInVain(w: Wire, states: seq<Install.State>)
    requires Install.Run(World(w), states)
    requires Overlap.Finishes(map[], Preflight.ArgOf(PINNED), Detail("1"), Release("1", ""), Accepted(w, "1", "alice"),
      states)
    ensures PinnedInVain(World(w), states)
  {
    AllEcho(w, states);
    EchoingSucceeds(World(w), states);
    PinnedIsAsked();
    EntryIsNotPinned(w);
  }

  lemma EchoingSucceeds(env: Install.Env, states: seq<Install.State>)
    requires Install.Run(env, states) && states[0].plugins == map[]
    requires states[|states| - 1].jobs == [Install.Finished(true)]
    requires forall k :: 0 <= k < |states| ==> Preflight.HubEchoes(states[k])
    ensures Preflight.PoolSucceeded(env, states)
  {
  }

  lemma AllEcho(w: Wire, states: seq<Install.State>)
    requires Overlap.Finishes(map[], Preflight.ArgOf(PINNED), Detail("1"), Release("1", ""), Accepted(w, "1", "alice"),
      states)
    ensures forall k :: 0 <= k < |states| ==> Preflight.HubEchoes(states[k]) && Preflight.HubTidy(states[k])
  {
    forall k | 0 <= k < |states| ensures Preflight.HubEchoes(states[k]) && Preflight.HubTidy(states[k]) {
      OneAndItsName(states[k]);
    }
  }

  lemma PinnedInstalls(w: Wire) returns (states: seq<Install.State>)
    requires Transparent(w) && AllFit(w)
    ensures Install.Run(World(w), states)
    ensures Overlap.Finishes(map[], Preflight.ArgOf(PINNED), Detail("1"), Release("1", ""), Accepted(w, "1", "alice"),
      states)
  {
    PinnedArgument();
    assert Small(w, "1", "alice");
    IsOffered(w, "1", "alice");
    PinnedRelease();
    states := Overlap.InstallAlone(World(w), map[], COORDINATE, Preflight.ArgOf(PINNED), Detail("1"),
      Signed(w, "1", "alice"), Accepted(w, "1", "alice"));
  }

  lemma PinnedRelease()
    ensures ParseCoordinate(Preflight.ArgOf(PINNED)) == Ok(Parsed("ns", "id", "1"))
    ensures ResolveRelease(Detail("1"), "1") == Ok(Release("1", ""))
  {
    PinnedArgument();
    ArgumentIsRead("1");
    IsReleased("1");
  }

  lemma PinnedInVainOver(w: Wire) returns (states: seq<Install.State>)
    requires Transparent(w) && AllFit(w)
    ensures PinnedInVain(World(w), states)
  {
    states := PinnedInstalls(w);
    FinishedInVain(w, states);
  }

  /**
   The documented way to pin a plugin field does not run: from an empty manifest
   and the one service with field "ns/id@1", a preflight, a pool that installs what it
   asked for without error, and then a service that does not resolve.
   */
  lemma PinnedFieldDoesNotRun() returns (states: seq<Install.State>)
    ensures PinnedInVain(World(TheWire()), states)
  {
    TheWireIsTransparent();
    TheWireIsMeasured();
    DocumentsFit(TheWire());
    states := PinnedInVainOver(TheWire());
  }
}
