/**
 `AssembleIndex`: the content-addressed artifacts of one plugin version
 (internal/oci/index.go:40-194). Reading a binary from disk is a lookup in `Files`.
 */
module Assemble {
  import opened Wrappers
  import opened Codec
  import Canonical

  const DEFAULT_PROTOCOL := "netrpc"

  type Files = map<string, Bytes>

  datatype PlatformBinary = PlatformBinary(os: string, arch: string, path: string, entrypoint: string)

  datatype Params = Params(
    coordinate: string, plugin: string, version: string, license: string,
    binaries: seq<PlatformBinary>, evaluates: seq<Evaluate>)

  datatype Blob = Blob(mediaType: MediaType, data: Bytes, digest: Digest) {
    function Descriptor(): Codec.Descriptor
    {
      Codec.Descriptor(mediaType, digest, |data|, None)
    }
  }

  function NewBlob(w: Wire, mediaType: MediaType, data: Bytes): Blob
  {
    Blob(mediaType, data, w.hash(data))
  }

  datatype AssembledIndex = AssembledIndex(
    coordinate: string, version: string, index: Blob, manifests: seq<Blob>, blobs: seq<Blob>)

  datatype AssembleError = MissingCoordinate | MissingPlugin | MissingVersion | NoBinaries | Unreadable(path: string)

  // ---------------------------------------------------------------------
  // What each platform contributes

  function ConfigOf(p: Params, b: PlatformBinary): Config
  {
    Config(p.plugin, p.version, p.license, Platform(b.os, b.arch), b.entrypoint, DEFAULT_PROTOCOL,
           Canonical.Canonical(p.evaluates))
  }

  function ConfigBlob(w: Wire, p: Params, b: PlatformBinary): Blob
  {
    NewBlob(w, PluginConfig, w.encodeConfig(ConfigOf(p, b)))
  }

  /** The file's contents; only asked of paths that were read. */
  function FileData(files: Files, path: string): Bytes
  {
    if path in files then files[path] else ""
  }

  function BinaryBlob(w: Wire, files: Files, b: PlatformBinary): Blob
  {
    NewBlob(w, PluginBinary, FileData(files, b.path))
  }

  function ManifestOf(config: Blob, binary: Blob): Manifest
  {
    Manifest(ImageManifest, config.Descriptor(), [binary.Descriptor()], None, None)
  }

  function ManifestBlob(w: Wire, p: Params, files: Files, b: PlatformBinary): Blob
  {
    NewBlob(w, ImageManifest, w.encodeManifest(ManifestOf(ConfigBlob(w, p, b), BinaryBlob(w, files, b))))
  }

  function ChildDescriptor(w: Wire, p: Params, files: Files, b: PlatformBinary): Descriptor
  {
    ManifestBlob(w, p, files, b).Descriptor().(platform := Some(Platform(b.os, b.arch)))
  }

  predicate Readable(files: Files, bs: seq<PlatformBinary>)
  {
    forall b :: b in bs ==> b.path in files
  }

  ghost predicate FirstUnreadable(files: Files, bs: seq<PlatformBinary>, i: int)
  {
    0 <= i < |bs| && Readable(files, bs[..i]) && bs[i].path !in files
  }

  function Manifests(w: Wire, p: Params, files: Files, bs: seq<PlatformBinary>): (r: seq<Blob>)
    ensures |r| == |bs|
    ensures forall i :: 0 <= i < |bs| ==> r[i] == ManifestBlob(w, p, files, bs[i])
  {
    seq(|bs|, i requires 0 <= i < |bs| => ManifestBlob(w, p, files, bs[i]))
  }

  function Children(w: Wire, p: Params, files: Files, bs: seq<PlatformBinary>): (r: seq<Descriptor>)
    ensures |r| == |bs|
    ensures forall i :: 0 <= i < |bs| ==> r[i] == ChildDescriptor(w, p, files, bs[i])
  {
    seq(|bs|, i requires 0 <= i < |bs| => ChildDescriptor(w, p, files, bs[i]))
  }

  /** Every config and binary blob, in the order the loop meets them. */
  function Leaves(w: Wire, p: Params, files: Files, bs: seq<PlatformBinary>): seq<Blob>
  {
    if bs == [] then []
    else
      var last := bs[|bs| - 1];
      Leaves(w, p, files, bs[..|bs| - 1]) + [ConfigBlob(w, p, last)] + [BinaryBlob(w, files, last)]
  }

  function Digests(bs: seq<Blob>): (r: set<Digest>)
    ensures forall b :: b in bs ==> b.digest in r
  {
    set b | b in bs :: b.digest
  }

  /** Keep the first blob of each digest. */
  function Deduped(bs: seq<Blob>): seq<Blob>
  {
    if bs == [] then []
    else
      var init := Deduped(bs[..|bs| - 1]);
      var last := bs[|bs| - 1];
      if last.digest in Digests(init) then init else init + [last]
  }

  function IndexOf(w: Wire, p: Params, files: Files): Index
  {
    Index(ImageIndex, Children(w, p, files, p.binaries))
  }

  function Assembled(w: Wire, p: Params, files: Files): AssembledIndex
  {
    AssembledIndex(
      p.coordinate, p.version,
      NewBlob(w, ImageIndex, w.encodeIndex(IndexOf(w, p, files))),
      Manifests(w, p, files, p.binaries),
      Deduped(Leaves(w, p, files, p.binaries)))
  }

  // ---------------------------------------------------------------------
  // The program

  /** The first of the fields that is missing. */
  function FirstMissing(p: Params): Option<AssembleError>
  {
    if p.coordinate == "" then Some(MissingCoordinate)
    else if p.plugin == "" then Some(MissingPlugin)
    else if p.version == "" then Some(MissingVersion)
    else if p.binaries == [] then Some(NoBinaries)
    else None
  }

  /**
   The loop, its digest set and its per-path memo of binary reads build exactly
   `Assembled`, or report the first missing field or unreadable file.
   */
  method AssembleIndex(w: Wire, p: Params, files: Files) returns (r: Result<AssembledIndex, AssembleError>)
    ensures r.Ok? <==>
      && p.coordinate != "" && p.plugin != "" && p.version != "" && p.binaries != []
      && Readable(files, p.binaries)
    ensures r.Ok? ==> r.value == Assembled(w, p, files)
    ensures FirstMissing(p).Some? ==> r == Err(FirstMissing(p).value)
    ensures FirstMissing(p).None? && r.Err? ==>
      r.error.Unreadable? && IsFirstUnreadable(files, p.binaries, r.error.path)
  {
    if p.coordinate == "" { return Err(MissingCoordinate); }
    if p.plugin == "" { return Err(MissingPlugin); }
    if p.version == "" { return Err(MissingVersion); }
    if |p.binaries| == 0 { return Err(NoBinaries); }

    var evaluates := Canonical.CanonicalEvaluates(p.evaluates);
    var built := AddPlatforms(w, p, files, evaluates);
    if built.Err? {
      return Err(built.error);
    }
    var index := Index(ImageIndex, built.value.descriptors);
    r := Ok(AssembledIndex(
      p.coordinate, p.version, NewBlob(w, ImageIndex, w.encodeIndex(index)), built.value.manifests, built.value.blobs));
  }

  /** The path of the first platform whose file cannot be read. */
  ghost predicate IsFirstUnreadable(files: Files, bs: seq<PlatformBinary>, path: string)
  {
    exists i :: FirstUnreadable(files, bs, i) && path == bs[i].path
  }

  lemma UnreadableAt(files: Files, bs: seq<PlatformBinary>, i: nat)
    requires i < |bs| && Readable(files, bs[..i]) && bs[i].path !in files
    ensures !Readable(files, bs) && IsFirstUnreadable(files, bs, bs[i].path)
  {
    assert bs[i] in bs && FirstUnreadable(files, bs, i);
  }

  /** The loop's three lists. */
  datatype Parts = Parts(blobs: seq<Blob>, manifests: seq<Blob>, descriptors: seq<Descriptor>)

  /** What the loop has built from these platforms. */
  ghost predicate Built(w: Wire, p: Params, files: Files, bs: seq<PlatformBinary>, parts: Parts)
  {
    parts == Parts(Deduped(Leaves(w, p, files, bs)), Manifests(w, p, files, bs), Children(w, p, files, bs))
  }

  method AddPlatforms(
      w: Wire, p: Params, files: Files, evaluates: seq<Evaluate>) returns (r: Result<Parts, AssembleError>)
    requires evaluates == Canonical.Canonical(p.evaluates)
    ensures r.Ok? <==> Readable(files, p.binaries)
    ensures r.Ok? ==> Built(w, p, files, p.binaries, r.value)
    ensures r.Err? ==> r.error.Unreadable? && IsFirstUnreadable(files, p.binaries, r.error.path)
  {
    var parts := Parts([], [], []);
    var blobsByDigest: set<Digest> := {};
    var binBlobsByPath: map<string, Blob> := map[];
    for i := 0 to |p.binaries|
      invariant SoFar(w, p, files, p.binaries[..i], parts, blobsByDigest, binBlobsByPath)
    {
      var read;
      read, parts, blobsByDigest, binBlobsByPath :=
        AddNext(w, p, files, evaluates, p.binaries[i], parts, blobsByDigest, binBlobsByPath, p.binaries[..i]);
      if !read {
        UnreadableAt(files, p.binaries, i);
        return Err(Unreadable(p.binaries[i].path));
      }
      PrefixGrows(p.binaries, i);
    }
    assert p.binaries[..|p.binaries|] == p.binaries;
    r := Ok(parts);
  }

  lemma PrefixGrows(bs: seq<PlatformBinary>, i: nat)
    requires i < |bs|
    ensures bs[..i + 1] == bs[..i] + [bs[i]]
  {
  }

  /** What the loop knows after these platforms. */
  ghost predicate SoFar(
    w: Wire, p: Params, files: Files, bs: seq<PlatformBinary>, parts: Parts, digests: set<Digest>,
    memo: map<string, Blob>)
  {
    Readable(files, bs) && Memo(w, files, memo) && Built(w, p, files, bs, parts) && digests == Digests(parts.blobs)
  }

  /** One round of the loop, unless the platform's file cannot be read. */
  method AddNext(
    w: Wire, p: Params, files: Files, evaluates: seq<Evaluate>, b: PlatformBinary,
    parts: Parts, digests: set<Digest>, memo: map<string, Blob>, ghost bs: seq<PlatformBinary>)
    returns (read: bool, parts': Parts, digests': set<Digest>, memo': map<string, Blob>)
    requires evaluates == Canonical.Canonical(p.evaluates) && SoFar(w, p, files, bs, parts, digests, memo)
    ensures read <==> b.path in files
    ensures read ==> SoFar(w, p, files, bs + [b], parts', digests', memo')
  {
    var binBlob;
    parts', digests' := parts, digests;
    binBlob, memo' := ReadBinary(w, files, b, memo);
    read := binBlob.Some?;
    if read {
      parts', digests' := AddPlatform(w, p, files, b, evaluates, binBlob.value, parts, digests, bs);
    }
  }

  /** One platform: its config and binary are remembered, its manifest is built and listed. */
  method AddPlatform(
    w: Wire, p: Params, files: Files, b: PlatformBinary, evaluates: seq<Evaluate>, binBlob: Blob,
    parts: Parts, digests: set<Digest>, ghost bs: seq<PlatformBinary>)
    returns (parts': Parts, digests': set<Digest>)
    requires b.path in files && binBlob == BinaryBlob(w, files, b) && evaluates == Canonical.Canonical(p.evaluates)
    requires Built(w, p, files, bs, parts) && digests == Digests(parts.blobs)
    ensures Built(w, p, files, bs + [b], parts') && digests' == Digests(parts'.blobs)
  {
    var cfgBlob := NewBlob(w, PluginConfig, w.encodeConfig(
      Config(p.plugin, p.version, p.license, Platform(b.os, b.arch), b.entrypoint, DEFAULT_PROTOCOL, evaluates)));
    assert cfgBlob == ConfigBlob(w, p, b);
    ghost var leaves := Leaves(w, p, files, bs);
    var blobs;
    blobs, digests' := Remember(parts.blobs, digests, cfgBlob, leaves);
    blobs, digests' := Remember(blobs, digests', binBlob, leaves + [cfgBlob]);
    var manBlob := NewBlob(w, ImageManifest,
      w.encodeManifest(Manifest(ImageManifest, cfgBlob.Descriptor(), [binBlob.Descriptor()], None, None)));
    var descriptor := manBlob.Descriptor().(platform := Some(Platform(b.os, b.arch)));
    parts' := Parts(blobs, parts.manifests + [manBlob], parts.descriptors + [descriptor]);
    LeavesAdded(w, p, files, bs, b);
    ManifestsAdded(w, p, files, bs, b);
    ChildrenAdded(w, p, files, bs, b);
  }

  lemma LeavesAdded(w: Wire, p: Params, files: Files, bs: seq<PlatformBinary>, b: PlatformBinary)
    ensures Leaves(w, p, files, bs + [b]) == Leaves(w, p, files, bs) + [ConfigBlob(w, p, b)] + [BinaryBlob(w, files, b)]
  {
    assert (bs + [b])[..|bs|] == bs;
  }

  lemma ManifestsAdded(w: Wire, p: Params, files: Files, bs: seq<PlatformBinary>, b: PlatformBinary)
    ensures Manifests(w, p, files, bs + [b]) == Manifests(w, p, files, bs) + [ManifestBlob(w, p, files, b)]
  {
  }

  lemma ChildrenAdded(w: Wire, p: Params, files: Files, bs: seq<PlatformBinary>, b: PlatformBinary)
    ensures Children(w, p, files, bs + [b]) == Children(w, p, files, bs) + [ChildDescriptor(w, p, files, b)]
  {
  }

  /** The memo of binary reads holds each file's own blob. */
  ghost predicate Memo(w: Wire, files: Files, memo: map<string, Blob>)
  {
    forall path :: path in memo ==>
      path in files && memo[path] == NewBlob(w, PluginBinary, files[path])
  }

  /** The binary's blob, read from disk only when no earlier platform named the same path. */
  method ReadBinary(w: Wire, files: Files, b: PlatformBinary, memo: map<string, Blob>)
    returns (read: Option<Blob>, memo': map<string, Blob>)
    requires Memo(w, files, memo)
    ensures Memo(w, files, memo')
    ensures read == if b.path in files then Some(BinaryBlob(w, files, b)) else None
  {
    if b.path in memo {
      read, memo' := Some(memo[b.path]), memo;
    } else if b.path !in files {
      read, memo' := None, memo;
    } else {
      var binBlob := NewBlob(w, PluginBinary, files[b.path]);
      read, memo' := Some(binBlob), memo[b.path := binBlob];
    }
  }

  /** Append a blob unless its digest is already recorded. */
  method Remember(blobs: seq<Blob>, digests: set<Digest>, b: Blob, ghost seen: seq<Blob>)
    returns (blobs': seq<Blob>, digests': set<Digest>)
    requires blobs == Deduped(seen) && digests == Digests(blobs)
    ensures blobs' == Deduped(seen + [b]) && digests' == Digests(blobs')
  {
    assert (seen + [b])[..|seen|] == seen;
    if b.digest in digests {
      blobs', digests' := blobs, digests;
    } else {
      blobs', digests' := blobs + [b], digests + {b.digest};
    }
  }

  // ---------------------------------------------------------------------
  // What deduplication keeps

  lemma {:induction false} DedupedMeaning(bs: seq<Blob>)
    ensures Digests(Deduped(bs)) == Digests(bs)
    ensures forall b :: b in Deduped(bs) ==> b in bs
    ensures forall i, j :: 0 <= i < j < |Deduped(bs)| ==> Deduped(bs)[i].digest != Deduped(bs)[j].digest
  {
    if bs != [] {
      var init, last := bs[..|bs| - 1], bs[|bs| - 1];
      DedupedMeaning(init);
      assert bs == init + [last];
      assert Digests(bs) == Digests(init) + {last.digest};
    }
  }

  /** What is kept of a digest is the first blob that has it. */
  lemma {:induction false} DedupedKeepsFirst(bs: seq<Blob>, b: Blob)
    requires b in Deduped(bs)
    ensures exists i :: 0 <= i < |bs| && bs[i] == b && forall j :: 0 <= j < i ==> bs[j].digest != b.digest
  {
    var n := |bs| - 1;
    if b in Deduped(bs[..n]) {
      DedupedKeepsFirst(bs[..n], b);
      var i :| 0 <= i < n && bs[..n][i] == b && forall j :: 0 <= j < i ==> bs[..n][j].digest != b.digest;
      assert bs[i] == b && forall j :: 0 <= j < i ==> bs[j] == bs[..n][j];
    } else {
      DedupedMeaning(bs[..n]);
      assert bs[n] == b;
      forall j | 0 <= j < n ensures bs[j].digest != b.digest {
        assert bs[..n][j] == bs[j] && bs[j].digest in Digests(bs[..n]);
      }
    }
  }

  ghost predicate LeafOf(w: Wire, p: Params, files: Files, bs: seq<PlatformBinary>, x: Blob)
  {
    exists b :: b in bs && (x == ConfigBlob(w, p, b) || x == BinaryBlob(w, files, b))
  }

  lemma LeafOfLast(w: Wire, p: Params, files: Files, bs: seq<PlatformBinary>, x: Blob)
    requires bs != []
    ensures var init, last := bs[..|bs| - 1], bs[|bs| - 1];
      LeafOf(w, p, files, bs, x) <==>
        LeafOf(w, p, files, init, x) || x == ConfigBlob(w, p, last) || x == BinaryBlob(w, files, last)
  {
    var init, last := bs[..|bs| - 1], bs[|bs| - 1];
    assert forall b :: b in bs <==> b in init || b == last;
  }

  lemma {:induction false} LeavesMembers(w: Wire, p: Params, files: Files, bs: seq<PlatformBinary>, x: Blob)
    ensures x in Leaves(w, p, files, bs) <==> LeafOf(w, p, files, bs, x)
  {
    if bs != [] {
      LeavesMembers(w, p, files, bs[..|bs| - 1], x);
      LeafOfLast(w, p, files, bs, x);
    }
  }

  /**
   The stored blobs are the configs and binaries of the platforms, one per
   digest: two platforms over one file share a single layer.
   */
  lemma AssembledBlobs(w: Wire, p: Params, files: Files)
    ensures var blobs := Assembled(w, p, files).blobs;
      && (forall i, j :: 0 <= i < j < |blobs| ==> blobs[i].digest != blobs[j].digest)
      && (forall b :: b in p.binaries ==>
            ConfigBlob(w, p, b).digest in Digests(blobs) && BinaryBlob(w, files, b).digest in Digests(blobs))
      && (forall x :: x in blobs ==> LeafOf(w, p, files, p.binaries, x))
  {
    var leaves := Leaves(w, p, files, p.binaries);
    DedupedMeaning(leaves);
    forall x ensures x in leaves <==> LeafOf(w, p, files, p.binaries, x) {
      LeavesMembers(w, p, files, p.binaries, x);
    }
  }

  /** The config says what was declared, for this platform. */
  ghost predicate Describes(p: Params, b: PlatformBinary, c: Config)
  {
    && c.plugin == p.plugin && c.version == p.version && c.license == p.license
    && c.platform == Platform(b.os, b.arch) && c.entrypoint == b.entrypoint && c.protocol == "netrpc"
    && c.evaluates == Canonical.Canonical(p.evaluates)
  }

  lemma ConfigDescribes(w: Wire, p: Params, b: PlatformBinary)
    requires Lawful(w)
    ensures w.decodeConfig(ConfigBlob(w, p, b).data).Some?
    ensures Describes(p, b, w.decodeConfig(ConfigBlob(w, p, b).data).value)
  {
    assert w.decodeConfig(w.encodeConfig(ConfigOf(p, b))) == Some(ConfigOf(p, b));
  }

  /** The descriptor names these bytes. */
  predicate Names(w: Wire, d: Descriptor, mediaType: MediaType, data: Bytes)
  {
    d.mediaType == mediaType && d.digest == w.hash(data) && d.size == |data|
  }

  /**
   What a reader of the assembled documents finds for the i-th platform: in the
   index a child for its os and arch, which is the i-th manifest, and in that
   manifest one binary layer, the file's bytes, and a config with what was
   declared; both are among the blobs.
   */
  lemma AssembledDocuments(w: Wire, p: Params, files: Files, i: nat)
      returns (x: Index, m: Manifest, config: Bytes)
    requires Lawful(w) && i < |p.binaries|
    ensures var idx := Assembled(w, p, files); var b := p.binaries[i];
      && idx.coordinate == p.coordinate && idx.version == p.version
      && w.decodeIndex(idx.index.data) == Some(x) && x.mediaType == ImageIndex
      && Names(w, idx.index.Descriptor(), ImageIndex, idx.index.data)
      && |x.manifests| == |idx.manifests| == |p.binaries|
      && x.manifests[i].platform == Some(Platform(b.os, b.arch))
      && Names(w, x.manifests[i], ImageManifest, idx.manifests[i].data)
      && w.decodeManifest(idx.manifests[i].data) == Some(m) && m.mediaType == ImageManifest
      && |m.layers| == 1 && Names(w, m.layers[0], PluginBinary, FileData(files, b.path))
      && Names(w, m.config, PluginConfig, config)
      && w.decodeConfig(config).Some? && Describes(p, b, w.decodeConfig(config).value)
      && m.config.digest in Digests(idx.blobs) && m.layers[0].digest in Digests(idx.blobs)
  {
    var b := p.binaries[i];
    x, m := IndexOf(w, p, files), ManifestOf(ConfigBlob(w, p, b), BinaryBlob(w, files, b));
    config := ConfigBlob(w, p, b).data;
    assert w.decodeIndex(w.encodeIndex(x)) == Some(x);
    assert w.decodeManifest(w.encodeManifest(m)) == Some(m);
    ConfigDescribes(w, p, b);
    AssembledBlobs(w, p, files);
    assert Assembled(w, p, files).manifests[i] == ManifestBlob(w, p, files, b);
  }

  /** Every config blob of an index describes one of its platforms, so all list the same canonical evaluates. */
  lemma AssembledConfigs(w: Wire, p: Params, files: Files, b: Blob)
    requires Lawful(w) && b in Assembled(w, p, files).blobs && b.mediaType == PluginConfig
    ensures w.decodeConfig(b.data).Some?
    ensures exists platform :: platform in p.binaries && Describes(p, platform, w.decodeConfig(b.data).value)
  {
    AssembledBlobs(w, p, files);
    var platform :| platform in p.binaries && (b == ConfigBlob(w, p, platform) || b == BinaryBlob(w, files, platform));
    ConfigDescribes(w, p, platform);
  }

  lemma {:induction false} LeavesDependOnConfigs(w: Wire, p: Params, q: Params, files: Files, bs: seq<PlatformBinary>)
    requires forall b :: ConfigOf(p, b) == ConfigOf(q, b)
    ensures Leaves(w, p, files, bs) == Leaves(w, q, files, bs)
  {
    if bs != [] {
      LeavesDependOnConfigs(w, p, q, files, bs[..|bs| - 1]);
      assert ConfigOf(p, bs[|bs| - 1]) == ConfigOf(q, bs[|bs| - 1]);
    }
  }

  /** Declaring the evaluated catalogs in another order gives the very same artifacts. */
  lemma IndexIgnoresDeclarationOrder(w: Wire, p: Params, files: Files, evaluates: seq<Evaluate>)
    requires multiset(evaluates) == multiset(p.evaluates) && Canonical.Consistent(p.evaluates)
    ensures Assembled(w, p.(evaluates := evaluates), files) == Assembled(w, p, files)
  {
    var q := p.(evaluates := evaluates);
    Canonical.ConsistentIsOrderIndependent(p.evaluates, evaluates);
    forall b ensures ConfigOf(p, b) == ConfigOf(q, b) {
    }
    LeavesDependOnConfigs(w, p, q, files, p.binaries);
    forall i | 0 <= i < |p.binaries|
      ensures ManifestBlob(w, q, files, p.binaries[i]) == ManifestBlob(w, p, files, p.binaries[i])
    {
      assert ConfigOf(p, p.binaries[i]) == ConfigOf(q, p.binaries[i]);
    }
    assert Manifests(w, q, files, p.binaries) == Manifests(w, p, files, p.binaries);
    assert Children(w, q, files, p.binaries) == Children(w, p, files, p.binaries);
  }
}
