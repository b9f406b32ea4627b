/**
 The documents of a published plugin and a small concrete codec for them. The
 codec stands for JSON: all that the pipeline uses of it is the round trip
 `Decode(Encode(x)) == Ok(x)`, proved here for configs, manifests and indexes.
 */
module Codec {
  import opened Wrappers

  type Bytes = string
  type Digest = string

  /** The media types the program tells apart; any other is `Other`. */
  datatype MediaType = ImageIndex | ImageManifest | PluginConfig | PluginBinary | SigstoreBundle | Other(name: string)

  datatype Platform = Platform(os: string, arch: string)

  datatype Descriptor = Descriptor(mediaType: MediaType, digest: Digest, size: int, platform: Option<Platform>)

  datatype Evaluate = Evaluate(catalog: string, catalogVersion: string, requirementIds: seq<string>)

  datatype Config = Config(
    plugin: string, version: string, license: string, platform: Platform,
    entrypoint: string, protocol: string, evaluates: seq<Evaluate>)

  /** An image manifest; one with a subject refers to that other manifest. */
  datatype Manifest = Manifest(
    mediaType: MediaType, config: Descriptor, layers: seq<Descriptor>,
    artifactType: Option<MediaType>, subject: Option<Descriptor>)

  datatype Index = Index(mediaType: MediaType, manifests: seq<Descriptor>)

  /**
   What the pipeline borrows from libraries: `digest.FromBytes` and JSON
   marshalling of the three documents. Every result of the pipeline holds for
   any `Wire` whose codec round-trips (`Lawful`); `ConcreteWireIsLawful` gives one.
   */
  datatype Wire = Wire(
    hash: Bytes -> Digest,
    encodeConfig: Config -> Bytes, decodeConfig: Bytes -> Option<Config>,
    encodeManifest: Manifest -> Bytes, decodeManifest: Bytes -> Option<Manifest>,
    encodeIndex: Index -> Bytes, decodeIndex: Bytes -> Option<Index>)

  ghost predicate Lawful(w: Wire)
  {
    && (forall c :: w.decodeConfig(w.encodeConfig(c)) == Some(c))
    && (forall m :: w.decodeManifest(w.encodeManifest(m)) == Some(m))
    && (forall x :: w.decodeIndex(w.encodeIndex(x)) == Some(x))
  }

  /**
   The hash tells the byte strings of `s` apart: always a hypothesis on the
   byte strings a result speaks of, never an assumption about the hash.
   */
  ghost predicate CollisionFree(w: Wire, s: set<Bytes>)
  {
    forall a, b :: a in s && b in s && w.hash(a) == w.hash(b) ==> a == b
  }

  // ---------------------------------------------------------------------
  // Wire formats. A decoder returns the value read and the input that is left.

  datatype Format<!T> = Format(enc: T -> Bytes, dec: Bytes -> Option<(T, Bytes)>)

  /** Reading back what was written gives the value and leaves the rest alone. */
  ghost predicate Faithful<T(!new)>(f: Format<T>)
  {
    forall x: T, rest: Bytes :: f.dec(f.enc(x) + rest) == Some((x, rest))
  }

  function EncString(s: string): Bytes
  {
    if s == "" then "." else ['+', s[0]] + EncString(s[1..])
  }

  function DecString(d: Bytes): Option<(string, Bytes)>
  {
    if d == "" then None
    else if d[0] == '.' then Some(("", d[1..]))
    else if |d| < 2 || d[0] != '+' then None
    else match DecString(d[2..])
      case None => None
      case Some((s, rest)) => Some(([d[1]] + s, rest))
  }

  const Str: Format<string> := Format(EncString, DecString)

  lemma {:induction false} StringRoundTrip(s: string, rest: Bytes)
    ensures DecString(EncString(s) + rest) == Some((s, rest))
  {
    if s == "" {
      assert ("." + rest)[1..] == rest;
    } else {
      var tail := EncString(s[1..]) + rest;
      StringRoundTrip(s[1..], rest);
      DecodeOne(s[0], tail);
      assert EncString(s) + rest == ['+', s[0]] + tail;
      assert [s[0]] + s[1..] == s;
    }
  }

  lemma DecodeOne(c: char, tail: Bytes)
    requires DecString(tail).Some?
    ensures DecString(['+', c] + tail) == Some(([c] + DecString(tail).value.0, DecString(tail).value.1))
  {
    assert (['+', c] + tail)[2..] == tail;
  }

  lemma StrFaithful()
    ensures Faithful(Str)
  {
    forall x: string, rest: Bytes ensures Str.dec(Str.enc(x) + rest) == Some((x, rest)) {
      StringRoundTrip(x, rest);
    }
  }

  /** A value written as another value from which it can be recovered. */
  function Via<A, B>(f: Format<A>, to: B -> A, from: A -> B): Format<B>
  {
    Format(b => f.enc(to(b)), d => match f.dec(d) case None => None case Some((a, rest)) => Some((from(a), rest)))
  }

  lemma ViaFaithful<A(!new), B(!new)>(f: Format<A>, to: B -> A, from: A -> B)
    requires Faithful(f) && forall b :: from(to(b)) == b
    ensures Faithful(Via(f, to, from))
  {
  }

  function PairOf<A, B>(f: Format<A>, g: Format<B>): Format<(A, B)>
  {
    Format(
      (p: (A, B)) => f.enc(p.0) + g.enc(p.1),
      d => match f.dec(d)
        case None => None
        case Some((a, d1)) =>
          match g.dec(d1)
          case None => None
          case Some((b, d2)) => Some(((a, b), d2)))
  }

  lemma PairFaithful<A(!new), B(!new)>(f: Format<A>, g: Format<B>)
    requires Faithful(f) && Faithful(g)
    ensures Faithful(PairOf(f, g))
  {
    forall p: (A, B), rest: Bytes
      ensures PairOf(f, g).dec(PairOf(f, g).enc(p) + rest) == Some((p, rest))
    {
      assert (f.enc(p.0) + g.enc(p.1)) + rest == f.enc(p.0) + (g.enc(p.1) + rest);
    }
  }

  function EncList<T>(enc: T -> Bytes, xs: seq<T>): Bytes
  {
    if xs == [] then "." else "+" + (enc(xs[0]) + EncList(enc, xs[1..]))
  }

  function DecList<T>(dec: Bytes -> Option<(T, Bytes)>, d: Bytes): Option<(seq<T>, Bytes)>
    decreases |d|
  {
    if d == "" then None
    else if d[0] == '.' then Some(([], d[1..]))
    else if d[0] != '+' then None
    else match dec(d[1..])
      case None => None
      case Some((x, rest)) =>
        if |rest| >= |d| then None
        else match DecList(dec, rest)
          case None => None
          case Some((xs, rest')) => Some(([x] + xs, rest'))
  }

  function ListOf<T>(f: Format<T>): Format<seq<T>>
  {
    Format((xs: seq<T>) => EncList(f.enc, xs), d => DecList(f.dec, d))
  }

  lemma {:induction false} ListRoundTrip<T(!new)>(f: Format<T>, xs: seq<T>, rest: Bytes)
    requires Faithful(f)
    ensures DecList(f.dec, EncList(f.enc, xs) + rest) == Some((xs, rest))
  {
    var d := EncList(f.enc, xs) + rest;
    if xs == [] {
      assert d[1..] == rest;
    } else {
      var tail := EncList(f.enc, xs[1..]) + rest;
      ListRoundTrip(f, xs[1..], rest);
      assert d[1..] == f.enc(xs[0]) + tail;
      assert d[0] == '+' && |tail| < |d|;
      assert xs == [xs[0]] + xs[1..];
    }
  }

  lemma ListFaithful<T(!new)>(f: Format<T>)
    requires Faithful(f)
    ensures Faithful(ListOf(f))
  {
    forall xs: seq<T>, rest: Bytes ensures ListOf(f).dec(ListOf(f).enc(xs) + rest) == Some((xs, rest)) {
      ListRoundTrip(f, xs, rest);
    }
  }

  /** A whole document: a kind tag, the value, and nothing after it. */
  function Document<T>(tag: char, f: Format<T>, x: T): Bytes
  {
    [tag] + f.enc(x)
  }

  function ReadDocument<T>(tag: char, f: Format<T>, d: Bytes): Option<T>
  {
    if d == "" || d[0] != tag then None
    else match f.dec(d[1..])
      case None => None
      case Some((x, rest)) => if rest == "" then Some(x) else None
  }

  lemma DocumentRoundTrip<T(!new)>(tag: char, f: Format<T>, x: T)
    requires Faithful(f)
    ensures ReadDocument(tag, f, Document(tag, f, x)) == Some(x)
  {
    assert Document(tag, f, x)[1..] == f.enc(x) + "";
  }

  // ---------------------------------------------------------------------
  // The formats of the published documents

  /** Integers as a sign and one stroke a unit. */
  function Digits(n: int): string
  {
    if n < 0 then "-" + seq(-n, i => '1') else seq(n, i => '1')
  }

  function Number(s: string): int
  {
    if s != "" && s[0] == '-' then 1 - |s| else |s|
  }

  const Int: Format<int> := Via(Str, Digits, Number)

  const PlatformFormat: Format<Platform> :=
    Via(PairOf(Str, Str), (p: Platform) => (p.os, p.arch), (t: (string, string)) => Platform(t.0, t.1))

  function FromOption<T>(o: Option<T>): seq<T>
  {
    match o case None => [] case Some(x) => [x]
  }

  function ToOption<T>(xs: seq<T>): Option<T>
  {
    if xs == [] then None else Some(xs[0])
  }

  function MediaTypeName(m: MediaType): string
  {
    match m
    case ImageIndex => "I"
    case ImageManifest => "M"
    case PluginConfig => "C"
    case PluginBinary => "B"
    case SigstoreBundle => "S"
    case Other(name) => "O" + name
  }

  function MediaTypeOf(s: string): MediaType
  {
    if s == "I" then ImageIndex
    else if s == "M" then ImageManifest
    else if s == "C" then PluginConfig
    else if s == "B" then PluginBinary
    else if s == "S" then SigstoreBundle
    else if s == "" then Other("")
    else Other(s[1..])
  }

  const Kind: Format<MediaType> := Via(Str, MediaTypeName, MediaTypeOf)

  const DescriptorFieldsFormat: Format<((MediaType, Digest), (int, seq<Platform>))> :=
    PairOf(PairOf(Kind, Str), PairOf(Int, ListOf(PlatformFormat)))

  const DescriptorFormat: Format<Descriptor> := Via(DescriptorFieldsFormat, DescriptorFields, DescriptorOf)

  function DescriptorFields(d: Descriptor): ((MediaType, Digest), (int, seq<Platform>))
  {
    ((d.mediaType, d.digest), (d.size, FromOption(d.platform)))
  }

  function DescriptorOf(t: ((MediaType, Digest), (int, seq<Platform>))): Descriptor
  {
    Descriptor(t.0.0, t.0.1, t.1.0, ToOption(t.1.1))
  }

  const EvaluateFormat: Format<Evaluate> :=
    Via(PairOf(PairOf(Str, Str), ListOf(Str)),
        (e: Evaluate) => ((e.catalog, e.catalogVersion), e.requirementIds),
        (t: ((string, string), seq<string>)) => Evaluate(t.0.0, t.0.1, t.1))

  const NamesFormat: Format<((string, string), (string, Platform))> :=
    PairOf(PairOf(Str, Str), PairOf(Str, PlatformFormat))

  const RestFormat: Format<((string, string), seq<Evaluate>)> := PairOf(PairOf(Str, Str), ListOf(EvaluateFormat))

  function ConfigFields(c: Config): (((string, string), (string, Platform)), ((string, string), seq<Evaluate>))
  {
    (((c.plugin, c.version), (c.license, c.platform)), ((c.entrypoint, c.protocol), c.evaluates))
  }

  function ConfigFrom(t: (((string, string), (string, Platform)), ((string, string), seq<Evaluate>))): Config
  {
    Config(t.0.0.0, t.0.0.1, t.0.1.0, t.0.1.1, t.1.0.0, t.1.0.1, t.1.1)
  }

  const ConfigFormat: Format<Config> := Via(PairOf(NamesFormat, RestFormat), ConfigFields, ConfigFrom)

  type ManifestParts = ((MediaType, (Descriptor, seq<Descriptor>)), (seq<MediaType>, seq<Descriptor>))

  function ManifestFields(m: Manifest): ManifestParts
  {
    ((m.mediaType, (m.config, m.layers)), (FromOption(m.artifactType), FromOption(m.subject)))
  }

  function ManifestFrom(t: ManifestParts): Manifest
  {
    Manifest(t.0.0, t.0.1.0, t.0.1.1, ToOption(t.1.0), ToOption(t.1.1))
  }

  const ImageFormat: Format<(MediaType, (Descriptor, seq<Descriptor>))> :=
    PairOf(Kind, PairOf(DescriptorFormat, ListOf(DescriptorFormat)))

  const ReferenceFormat: Format<(seq<MediaType>, seq<Descriptor>)> := PairOf(ListOf(Kind), ListOf(DescriptorFormat))

  const ManifestFormat: Format<Manifest> := Via(PairOf(ImageFormat, ReferenceFormat), ManifestFields, ManifestFrom)

  const IndexFormat: Format<Index> :=
    Via(PairOf(Kind, ListOf(DescriptorFormat)),
        (x: Index) => (x.mediaType, x.manifests),
        (t: (MediaType, seq<Descriptor>)) => Index(t.0, t.1))

  lemma IntFaithful()
    ensures Faithful(Int)
  {
    StrFaithful();
    ViaFaithful(Str, Digits, Number);
  }

  lemma KindRecovered(m: MediaType)
    ensures MediaTypeOf(MediaTypeName(m)) == m
  {
    if m.Other? {
      var s := "O" + m.name;
      assert s[1..] == m.name && s[0] == 'O';
      assert "I"[0] != 'O' && "M"[0] != 'O' && "C"[0] != 'O' && "B"[0] != 'O' && "S"[0] != 'O';
    }
  }

  lemma KindFaithful()
    ensures Faithful(Kind)
  {
    StrFaithful();
    forall m: MediaType ensures MediaTypeOf(MediaTypeName(m)) == m {
      KindRecovered(m);
    }
    ViaFaithful(Str, MediaTypeName, MediaTypeOf);
  }

  lemma PlatformFaithful()
    ensures Faithful(PlatformFormat)
  {
    StrFaithful();
    PairFaithful(Str, Str);
  }

  lemma DescriptorFieldsFaithful()
    ensures Faithful(DescriptorFieldsFormat)
  {
    StrFaithful();
    KindFaithful();
    IntFaithful();
    PlatformFaithful();
    PairFaithful(Kind, Str);
    ListFaithful(PlatformFormat);
    PairFaithful(Int, ListOf(PlatformFormat));
    PairFaithful(PairOf(Kind, Str), PairOf(Int, ListOf(PlatformFormat)));
  }

  lemma DescriptorFieldsRecover()
    ensures forall d: Descriptor :: DescriptorOf(DescriptorFields(d)) == d
  {
  }

  lemma DescriptorFaithful()
    ensures Faithful(DescriptorFormat)
  {
    DescriptorFieldsFaithful();
    DescriptorFieldsRecover();
    ViaFaithful(DescriptorFieldsFormat, DescriptorFields, DescriptorOf);
  }

  lemma EvaluateFaithful()
    ensures Faithful(EvaluateFormat)
  {
    StrFaithful();
    ListFaithful(Str);
    PairFaithful(Str, Str);
    PairFaithful(PairOf(Str, Str), ListOf(Str));
  }

  lemma NamesFaithful()
    ensures Faithful(NamesFormat)
  {
    StrFaithful();
    PlatformFaithful();
    PairFaithful(Str, Str);
    PairFaithful(Str, PlatformFormat);
    PairFaithful(PairOf(Str, Str), PairOf(Str, PlatformFormat));
  }

  lemma RestFaithful()
    ensures Faithful(RestFormat)
  {
    StrFaithful();
    EvaluateFaithful();
    PairFaithful(Str, Str);
    ListFaithful(EvaluateFormat);
    PairFaithful(PairOf(Str, Str), ListOf(EvaluateFormat));
  }

  lemma ConfigFieldsRecover()
    ensures forall c: Config :: ConfigFrom(ConfigFields(c)) == c
  {
  }

  lemma ConfigFaithful()
    ensures Faithful(ConfigFormat)
  {
    NamesFaithful();
    RestFaithful();
    PairFaithful(NamesFormat, RestFormat);
    ConfigFieldsRecover();
    ViaFaithful(PairOf(NamesFormat, RestFormat), ConfigFields, ConfigFrom);
  }

  lemma ImageFaithful()
    ensures Faithful(ImageFormat)
  {
    KindFaithful();
    DescriptorFaithful();
    ListFaithful(DescriptorFormat);
    PairFaithful(DescriptorFormat, ListOf(DescriptorFormat));
    PairFaithful(Kind, PairOf(DescriptorFormat, ListOf(DescriptorFormat)));
  }

  lemma ReferenceFaithful()
    ensures Faithful(ReferenceFormat)
  {
    KindFaithful();
    DescriptorFaithful();
    ListFaithful(Kind);
    ListFaithful(DescriptorFormat);
    PairFaithful(ListOf(Kind), ListOf(DescriptorFormat));
  }

  lemma ManifestFieldsRecover()
    ensures forall m: Manifest :: ManifestFrom(ManifestFields(m)) == m
  {
  }

  lemma ManifestFaithful()
    ensures Faithful(ManifestFormat)
  {
    ImageFaithful();
    ReferenceFaithful();
    PairFaithful(ImageFormat, ReferenceFormat);
    ManifestFieldsRecover();
    ViaFaithful(PairOf(ImageFormat, ReferenceFormat), ManifestFields, ManifestFrom);
  }

  lemma IndexFaithful()
    ensures Faithful(IndexFormat)
  {
    KindFaithful();
    DescriptorFaithful();
    ListFaithful(DescriptorFormat);
    PairFaithful(Kind, ListOf(DescriptorFormat));
  }

  /** A lawful wire over any hash. */
  function ConcreteWire(hash: Bytes -> Digest): Wire
  {
    Wire(
      hash,
      c => Document('C', ConfigFormat, c), d => ReadDocument('C', ConfigFormat, d),
      m => Document('M', ManifestFormat, m), d => ReadDocument('M', ManifestFormat, d),
      x => Document('I', IndexFormat, x), d => ReadDocument('I', IndexFormat, d))
  }

  /** The codec law is met by a concrete self-delimiting encoding. */
  lemma ConcreteWireIsLawful(hash: Bytes -> Digest)
    ensures Lawful(ConcreteWire(hash))
  {
    ConfigFaithful();
    ManifestFaithful();
    IndexFaithful();
    forall c ensures ReadDocument('C', ConfigFormat, Document('C', ConfigFormat, c)) == Some(c) {
      DocumentRoundTrip('C', ConfigFormat, c);
    }
    forall m ensures ReadDocument('M', ManifestFormat, Document('M', ManifestFormat, m)) == Some(m) {
      DocumentRoundTrip('M', ManifestFormat, m);
    }
    forall x ensures ReadDocument('I', IndexFormat, Document('I', IndexFormat, x)) == Some(x) {
      DocumentRoundTrip('I', IndexFormat, x);
    }
  }

  /** It tells the kinds of documents apart. */
  lemma IndexIsNoManifest(hash: Bytes -> Digest, x: Index)
    ensures ConcreteWire(hash).decodeManifest(ConcreteWire(hash).encodeIndex(x)) == None
  {
  }
}
