# Verification of the plugin SDK

A model in Dafny of the parts of the SDK that hold state, protocols and
arithmetic, and proofs about it. `dafny verify dfyconfig.toml` checks everything.

- **The plugin pipeline** (`Codec`, `Canonical`, `Assemble`, `Push`, `Pull`, `Verify`, `Pipeline`, `Attach`):
  a publisher assembles an index, pushes it leaves first to a content-addressed
  target and attaches signatures to it; a consumer discovers signatures, chooses one
  and walks from the index to the binary, checking every digest. The two programs are
  inverses over an honest store, from the push over the signature to the installed
  binary, and over any other the consumer gets the publisher's bytes or an error.
- **The manifest and installing** (`Semver`, `Manifest`, `UpdateProtocol`, `Coordinate`,
  `Install`, `Overlap`, `Preflight`, `Witness`, `Run`): the manifest on disk under interleaved updates,
  the choice of the latest version, installs as a transition system with hub and
  registries chosen by an adversary, the preflight and the plan of a run, and concrete
  runs that show what goes wrong.
- **Changes and suites** (`Changes`, `Suite`): changes applied and reverted with
  failing callbacks, and the evaluation loop around them, with benchmark mode.
- **Publishing** (`Publish`): the publish manifest over shared catalogs and maps in any order.
- **Device login** (`DeviceFlow`): the polling loop of sections 3.4 and 3.5 of RFC 8628.
- **The benchmark breakdown** (`Breakdown`): conservation of time, order and rounding.

`Wrappers` and `Ordering` hold options, results and the sorts of the standard library:
`slices.SortFunc` promises a sorted permutation and nothing about ties, the stable
sorts are one stable insertion sort. A map that is ranged over is visited in an
arbitrary order. Classes stand for the program's mutable objects; each method is
proved against a function of the old state, and the properties are lemmas about
that function over all runs.

Where the code and its comments disagree the model follows the code:

- The comments at internal/oci/pull.go:57-61 and internal/verify/walk.go:109-112 say that a flood
  of referrers cannot make a plugin look unsigned, and internal/verify/walk_test.go:373-375 that bundles
  which are present never do. Both fail. When none of the inspected referrers holds a bundle, the test at
  internal/verify/walk.go:84-86 comes before the one for a cut listing (`Pipeline.FloodReadsAsUnsigned`);
  and an empty bundle is answered with the very error for no bundle at internal/verify/sigstore.go:99-102,
  which internal/verify/walk.go:117-123 returns alone or joined (`Pipeline.EmptyBundleReadsAsUnsigned`).
  The exact condition is `Pipeline.ReportedUnsignedIff`: of a listing, no bundle and nothing broken among the inspected
  referrers, or a listing that was not cut, an empty bundle in it and no bundle that is accepted.
- internal/oci/sign.go:119-123 calls attaching the inverse of discovery, and signing again is to be additive
  (internal/oci/pull.go:174-177). The bundle is pushed without asking whether it is there, so a target that
  rejects duplicates refuses the same bundle a second time (`Attach.AttachSignature`).
- The comment at pluginkit/evaluation_orchestrator.go:40-43 says that catalogs without an override are
  published under the plugin's publisher; the code takes the catalog's author.
- pluginkit/change.go:120 stores an empty target name, which the precheck then rejects for ever;
  `Changes.RevertOrReportIff` says exactly what is lost.
- The comment at internal/install/fromconfig.go:23-25 says that a service's plugin field may be pinned
  with @version. Such a field passes the preflight, which installs that version under the name without the
  pin, and stops the run, as an empty plugin field, a padded one and a padded version do
  (`Preflight.PreflightIsNotEnough`, and a run from start to end in `Witness.PinnedFieldDoesNotRun`). Exactly
  which services the preflight makes runnable is `Preflight.PoolMakesRunnableIff`.
- The signer pin is read outside the manifest lock. Exactly when overlapping first installs can record two
  signers is `Overlap.OneSignerIff`, and `Witness.TwoSignersAreRecorded` is a complete run in which they do.

## Model

| member | source | states |
|---|---|---|
| Assemble.AssembleIndex | internal/oci/index.go:110-201 | The loop with its digest set and path memo builds one child per platform, in order, with deduplicated blobs; it fails exactly for a missing field or an unreadable file, and then reports the first missing field, in the order of the checks, or else the first unreadable file. |
| Assemble.DedupedMeaning | internal/oci/index.go:163-170 | Deduplication keeps every digest, invents no blob and repeats no digest. |
| Assemble.AssembledBlobs | internal/oci/index.go:136-188 | The blobs to store are exactly the platforms' configs and binaries, one per digest; platforms over one file share a layer. |
| Assemble.AssembledConfigs | internal/oci/index.go:136-152 | Every config blob, decoded, describes one of the platforms: plugin, version, license, os and arch, entrypoint, protocol, and the one canonical list of evaluated catalogs. |
| Assemble.AssembledDocuments | internal/oci/index.go:136-201 | What a reader of the documents finds for the i-th platform: in the index a child for its os and arch with digest and size of the i-th manifest, in that a single binary layer with digest and size of the file, and a config with everything that was declared; both are among the blobs. |
| Assemble.DedupedKeepsFirst | internal/oci/index.go:163-170 | What is kept of a digest is the first blob that has it. |
| Assemble.IndexIgnoresDeclarationOrder | internal/oci/index.go:124-127 | Declaring the evaluated catalogs in another order gives the very same blobs, manifests and index digest. |
| Canonical.CanonicalEvaluates | internal/oci/index.go:210-228 | The loop and stable sort compute the canonical list. |
| Canonical.CanonicalIsSortedPermutation | internal/oci/index.go:203-228 | The list is a permutation of the entries ordered by catalog and then by version, and each entry's requirement ids are a sorted permutation. |
| Canonical.CanonicalIdempotent | internal/oci/index.go:210-228 | Canonicalizing twice changes nothing. |
| Canonical.OrderIndependentIff | internal/oci/index.go:203-228 | The list is the same for every permutation of the input if and only if entries with the same catalog and version list the same requirement ids; distinct pairs are a special case. |
| Canonical.RequirementOrderIrrelevant | internal/oci/index.go:216-220 | The order of the requirement ids inside the entries never matters. |
| Push.PushBlobTo | internal/oci/push.go:83-90 | A blob that the target says it has is left alone, and in every other case, also when the question failed, it is pushed and the push alone decides; success means the target has it, failure leaves the target with or without it. |
| Push.PushTo | internal/oci/push.go:61-79 | Whatever requests fail, the target has received some prefix of blobs, child manifests, index, tag; success means all of them and returns the index digest, and without failures it succeeds. |
| Push.AssembledIsCoherent | internal/oci/index.go:161-199 | What assembly produces names only blobs and manifests it also produces, each under its own digest. |
| Push.StepsAreLeavesFirst | internal/oci/push.go:61-79 | Every step of a push only refers to content put by earlier steps. |
| Push.EveryPrefixIsClosed | internal/oci/push.go:57-79 | After every prefix of a push the store is reference-closed: no manifest, index or tag ever names content that is not there. |
| Push.AttemptsReachAPrefix | internal/oci/push.go:57-90 | Any sequence of interrupted attempts leaves the store at the longest prefix reached. |
| Push.RepushConverges | internal/oci/push.go:57-90 | Pushing to the end after any interrupted attempts gives the store of one uninterrupted push, and pushing again changes nothing. |
| Push.PushedContent | internal/oci/push.go:61-90 | In a content-addressed store, after the push each digest holds exactly the bytes that were pushed, unless the hash collides on the bytes involved. |
| Pull.FetchBytes | internal/oci/pull.go:264-281 | A fetch answers the whole content and only if it is within the limit; it reports an oversized answer exactly when the descriptor or the stream is too long. |
| Pull.InspectReferrer | internal/oci/pull.go:218-240 | One referrer yields its first bundle layer, nothing, or a failure. |
| Pull.InspectMeaning | internal/oci/pull.go:218-240 | A referrer is broken when its manifest cannot be fetched or read or its first bundle layer cannot be fetched, has no bundle when no layer is one, and otherwise holds the content of the first that is. |
| Pull.FetchSignatureBundle | internal/oci/pull.go:183-250 | Discovery returns in order the usable bundles of the first 32 referrers, reports whether there were more, and fails only when the listing failed or some inspected referrer was broken and none usable. |
| Pull.BundlesMembers | internal/oci/pull.go:216-250 | A bundle is returned exactly when some inspected referrer holds it. |
| Pull.DiscoverMeaning | internal/oci/pull.go:183-250 | Of a listing the first 32 count: discovery fails if and only if one of them is broken and none usable, otherwise returns exactly their usable bundles, and says whether there were more. |
| Pull.PulledIsIndex | internal/oci/pull.go:116-158 | What is pulled is an image index, fetched whole under the tag that was asked for, and its listing did not fail; a target that cannot list gives no bundles. |
| Verify.SelectHostChild | internal/verify/walk.go:237-249 | The first child whose own platform is the host's, or an error exactly when there is none. |
| Verify.SingleBinaryLayer | internal/verify/walk.go:253-267 | The binary layer when there is exactly one, an error otherwise. |
| Verify.TheBinaryLayerIsOnly | internal/verify/walk.go:253-267 | A layer is taken if and only if it is of the binary type and no other layer is. |
| Verify.FollowedChain | internal/verify/walk.go:144-232 | A completed walk checked every link: index, child, config and binary each hash to the digest that named them. |
| Verify.WalkStartsAtIndex | internal/verify/walk.go:138-163 | Every walk that completes started at the first child for the host in a document of the verified digest that is an image index. |
| Verify.IndexRefusals | internal/verify/walk.go:138-163 | Bytes of another digest are a mismatch before anything is read, another or childless document is malformed, and an index without a child for the host is unavailable. |
| Verify.ChildRefusals | internal/verify/walk.go:165-180 | With the child chosen, a failed fetch, other bytes than the index names, and a manifest that is not a plugin's each end the walk with their own error. |
| Verify.BinaryRefusals | internal/verify/walk.go:182-206 | With the config read, the walk completes if and only if there is one binary layer and the bytes fetched for it are the ones named, and each failure has its own error. |
| Verify.Index | internal/verify/walk.go:73-124 | What is accepted carries the identity of the first bundle whose signature covers this very index digest and whose identity the pin allows; without such a bundle the walk is not entered and the error is unsigned without a bundle, an invalid signature for a cut listing, one bundle's own error unwrapped, or several joined in order. |
| Verify.SelectSignerIsFirst | internal/verify/walk.go:91-107 | The signer is the one whom the oracle names for the first bundle that vouches for the digest: not empty, its signature over this digest, its identity allowed by the pin. |
| Verify.NoSignerIff | internal/verify/walk.go:91-124 | No signer is selected exactly when no bundle vouches for the digest. |
| Verify.AllErrorsKept | internal/verify/walk.go:90-124 | When none does, each bundle's own reason is kept, in order. |
| Verify.AcceptedIsVouchedFor | internal/verify/walk.go:73-107 | Only a signature over the digest of this index lets an install through, and the recorded signer is that of the first such bundle. |
| Verify.FirstVouchingDecides | internal/verify/walk.go:90-107 | With such a bundle the walk alone decides, under the first one's identity, whatever the bundles around it are. |
| Verify.RejectionIsIff | internal/verify/walk.go:84-123 | Which sentinel a rejection is found to be: unsigned exactly without a bundle or, in a listing that was not cut, with an empty bundle among them; and so for an invalid signature and a wrong identity, by the errors of the single bundles. |
| Pipeline.SameDigestSameTrail | internal/verify/walk.go:130-232 | Two completed walks for one index digest and host, over any two targets, go through the same documents and bytes when the hash is collision-free on the bytes seen. |
| Pipeline.WalkIsDecidedByIndexDigest | internal/verify/walk.go:130-276 | So two accepted walks for one digest give the same binary, entrypoint and protocol, whatever the targets answer and whoever signed. |
| Pipeline.FollowOfPublishedDigest | internal/verify/walk.go:130-232 | A walk for the digest of an assembled index goes through exactly that index's documents for the host. |
| Pipeline.AcceptedInstallIsThePublishedBinary | internal/verify/walk.go:130-276 | An accepted walk for the digest of an assembled index over any, even lying, target returns the publisher's first host binary, entrypoint, version and coordinate. |
| Pipeline.FollowHonest | internal/verify/walk.go:130-232 | Over an honest store that received the push the walk completes exactly when there is a host binary and the documents are within the limits. |
| Pipeline.PublishedPluginInstalls | internal/verify/walk.go:73-276 | Publish, then install: over an honest store, with a bundle among those discovered that vouches for the published digest, the install succeeds exactly when the publication is installable, and yields the host binary's bytes, entrypoint and version under the first such bundle's signer. |
| Pipeline.DiscoveryAndSelectionCompose | internal/oci/pull.go:183-250 | The first referrer among the inspected ones whose bundle passes both checks decides the install, and without one it is rejected. |
| Attach.AttachSignature | internal/oci/sign.go:119-144 | Whatever requests fail, the target has received some prefix of bundle, config and referrer manifest; success means all of them, and without failures it succeeds unless the target rejects duplicates and has the bundle already, when it always fails. |
| Attach.ReferrerDocument | internal/oci/sign.go:124-143 | The attached document is of the bundle's type, has the index as its subject, and names the bundle and an empty config by digest and size. |
| Attach.AttachKeepsClosed | internal/oci/sign.go:124-143 | After every prefix of an attach a reference-closed store is closed. |
| Attach.AttachAddsReferrers | internal/oci/pull.go:174-177 | Signing again is additive: after any number of attaches the referrers of the index are exactly those from before and one for each bundle. |
| Attach.AttachedIsDiscovered | internal/oci/pull.go:183-250 | With at most 32 referrers in an honest listing, in any order, every attached bundle is discovered, whatever the other referrers hold. |
| Attach.DiscoveryInvertsAttaching | internal/oci/sign.go:119-123 | Discovery is the inverse of attaching: from an index without referrers exactly the attached bundles are found, however many attaches there were and in whatever order they are listed. |
| Attach.SignedPluginInstalls | internal/oci/sign.go:119-144 | Publish, sign and install: with at most 32 referrers and one attached bundle whose signature covers the index digest and whose identity the pin allows, the install from an honest registry succeeds exactly when the publication is installable, with the publisher's binary and the signer of a bundle that does the same. |
| Attach.SignedPluginInstallsIff | internal/oci/pull.go:183-250 | And without earlier referrers: it succeeds if and only if the publication is installable and some attached bundle's signature covers the index digest under an identity the pin allows, and it records such a bundle's signer. |
| Attach.SignedCanBeServed | internal/oci/sign.go:119-144 | Every publication with at most 32 signatures that fit can be so served: from an empty repository on, a registry and an honest listing exist that meet what the two results before ask for. |
| Pipeline.ReportedUnsignedIff | internal/verify/walk.go:84-123 | An install is reported unsigned if and only if the target cannot list referrers, or no inspected referrer holds a bundle or is broken, or the listing was not cut, a bundle of no bytes was found and no bundle found is accepted; never when the listing failed. |
| Pipeline.FloodHidesTheRest | internal/verify/walk.go:84-86 | Over any registry that serves the index and lists 32 referrers without a bundle first, the rest of the listing, signatures included, does not count: the pull is truncated and the install is reported unsigned. |
| Pipeline.FloodReadsAsUnsigned | internal/verify/walk.go:84-86 | Every index can be so listed that it is reported unsigned: 32 referrers without a bundle, each described by the digest and size of what is served, and then any other; the truncation flag is not looked at then. |
| Pipeline.EmptyBundleReadsAsUnsigned | internal/verify/sigstore.go:99-102 | One referrer whose bundle layer has no bytes is a bundle that is present, found and not cut, and still the install is reported unsigned. |
| Codec.ConcreteWireIsLawful | internal/oci/index.go:147-199 | A concrete encoding satisfies the round-trip laws asked of the JSON documents, for every hash. |
| Semver.ParseText | internal/manifest/manifest.go:227-232 | Every version, written out with its prerelease and any build metadata, is read back. |
| Semver.ShorthandsAreRead | internal/manifest/manifest.go:217-232 | A major, and a major and minor, stand for the version with zeros. |
| Semver.ParsedIsValid | internal/manifest/manifest.go:227-232 | Nothing else is ever read: what parses is a valid version. |
| Manifest.WrittenVersion | internal/manifest/manifest.go:217-232 | A version is read the same with and without its leading v. |
| Semver.CompareLaws | internal/manifest/manifest.go:217-223 | Comparison of semantic versions is antisymmetric and transitive. |
| Semver.PrecedenceIsTotalPreorder | internal/manifest/manifest.go:217-223 | Precedence of section 11 of Semantic Versioning 2.0.0 is a total preorder. |
| Semver.PrecedenceIsSection11 | internal/manifest/manifest.go:217-221 | One version is below another if and only if section 11 of Semantic Versioning 2.0.0 says so: major, minor and patch as numbers in this order, a prerelease below its release, and of two prereleases the first identifier that differs, or the end of one list, decides. |
| Ordering.StringLeMeaning | internal/manifest/manifest.go:217-223 | Text is compared by its first differing character, and comes before its continuations. |
| Semver.CompareIntIsNumeric | internal/manifest/manifest.go:217-223 | Comparing numeric identifiers by length and text is comparing their values. |
| Manifest.KeyInjective | internal/manifest/manifest.go:49-51 | Keys tell entries apart when names have no '@'. |
| Manifest.KeyClash | internal/manifest/manifest.go:49-51 | Which names can share a key: the key tells name and version apart for two names if and only if they are equal or neither continues the other after an '@'. |
| Manifest.SharedKeyIsFound | internal/manifest/manifest.go:161-179 | Where keys clash an entry is found, and lost, under every name and version with its key. |
| Manifest.AddedLookup | internal/manifest/manifest.go:141-146 | Adding replaces that name and version and leaves every other lookup alone. |
| Manifest.WithoutNameLookup | internal/manifest/manifest.go:150-156 | Removing all versions of a name removes exactly these. |
| Manifest.WithoutKeyLookup | internal/manifest/manifest.go:161-163 | Removing a version removes that lookup and no other, keeps every entry under its key, and undoes adding the version. |
| Manifest.Manifest.Add | internal/manifest/manifest.go:141-146 | The map afterwards is the map before with that entry. |
| Manifest.Manifest.RemoveVersion | internal/manifest/manifest.go:161-163 | Afterwards a lookup of that name and version finds nothing and every other lookup what it found before, for names without '@'. |
| Manifest.Manifest.RemoveAllVersions | internal/manifest/manifest.go:150-156 | Deleting while ranging over the map, in any order, removes exactly the entries of that name. |
| Manifest.Manifest.Latest | internal/manifest/manifest.go:186-199 | The result is the best entry of some order in which every entry is visited once. |
| Manifest.LatestFoundIff | internal/manifest/manifest.go:186-199 | In every order an entry is found exactly when the name has one, and it is an entry of that name. |
| Manifest.LatestIsMaximum | internal/manifest/manifest.go:186-223 | When all or none of a name's versions are semantic, the result is a maximum for every order. |
| Manifest.LatestIsHighestSemver | internal/manifest/manifest.go:186-232 | When all are semantic, any two orders give entries of equal, highest precedence. |
| Manifest.LatestHasHighestNumbers | internal/manifest/manifest.go:186-232 | In every order no installed version of the name is above the chosen one by section 11, and none has a greater major, minor and patch as numbers. |
| Manifest.LatestIsLastText | internal/manifest/manifest.go:186-223 | Without any semantic version the last one as text is chosen. |
| Manifest.OrderIndependentIff | internal/manifest/manifest.go:186-223 | Every order gives one particular entry if and only if that entry compares greater than every other entry of the name. |
| Manifest.MixedKindsGoInACircle | internal/manifest/manifest.go:217-223 | 1.10.0, 1.9.0 and 1.5x each compare greater than the next, in a circle. |
| Manifest.MigrationKeepsLast | internal/manifest/manifest.go:80-92 | Loading a file in the old format finds, for each name and version, the last array entry for it, and invents none. |
| UpdateProtocol.EveryInterleavingIsSerial | internal/manifest/manifest.go:117-136 | At every moment of every interleaving the manifest on disk is the successful updates, each exactly once, replayed in lock order; failing ones leave no trace. |
| UpdateProtocol.StepsAreAtomicCommits | internal/manifest/manifest.go:117-136 | Each step either leaves the disk alone or applies one thread's mutation to what is on disk at that moment. |
| UpdateProtocol.Disk.Update | internal/manifest/manifest.go:124-136 | One call applies the mutation to the loaded manifest, or fails and leaves the file alone. |
| Coordinate.ParseOfArg | internal/install/coordinate.go:15-39 | Parsing an argument built from a name and a version trims and normalizes the two parts separately. |
| Coordinate.ParsedName | internal/install/coordinate.go:11-39 | What parsing accepts is the text itself, has no '@' and no surrounding space. |
| Coordinate.ParsePartsIff | internal/install/coordinate.go:24-39 | A coordinate is accepted exactly when it is two safe segments around the first '/', and is read as these. |
| Coordinate.NormalizeVersion | internal/install/coordinate.go:43-48 | The version itself, or without a leading v that a digit follows, and never a v before a digit. |
| Coordinate.FindRelease | internal/oci/plugindetail.go:50-60 | The first listed release of that version, and none exactly when there is none. |
| Coordinate.ResolveRelease | internal/oci/plugindetail.go:37-60 | The release has the requested version, or the latest, and is the first listed one as it is listed; a latest version that is not listed gives a stub without digest; it fails exactly when the requested version is not listed or there is no latest. |
| Install.VerifiedMeetsPolicy | internal/verify/walk.go:34-42 | What verification accepts meets the pin and carries the coordinate, version and digest it was asked for. |
| Install.StepKeepsPin | internal/install/grcstore.go:80-160 | Every step of every install keeps a coordinate's entries, and the pins its installs hold, bound to one signer. |
| Install.PinnedStaysPinned | internal/install/grcstore.go:80-215 | Once a coordinate is installed under one signer it stays so in every run, however installs overlap and whatever hub and registries answer, as long as the hub does not answer with a coordinate that continues this one after an '@' and so shares its keys. |
| Install.DeclaredSignerIsRecorded | internal/install/grcstore.go:85-98 | When the hub always declares one signer for a coordinate, only that signer is ever recorded for it, even by overlapping first installs and whatever else hub and registries answer. |
| Install.FirstInstallRecordsDeclaredSigner | internal/install/grcstore.go:85-160 | A first install records the signer the hub declared, whenever it declared one. |
| Install.CommitRecordsVerified | internal/install/grcstore.go:115-160 | Over every run, what a commit records is what was verified, under the hub's coordinate and the release's version, with its digest, its signer and the path in a directory of name and version; version and file are single path components, and no other entry changes. |
| Install.PathsTellApart | internal/install/grcstore.go:115-137 | Two installs record one path only for one coordinate, version and entrypoint. |
| Install.RecordedPathsStayApart | internal/install/grcstore.go:115-160 | Over every run, whatever hub and registries answer, entries of different name or version never share a path. |
| Install.PoolIsBounded | internal/install/fromconfig.go:16-53 | Over every run at most four installs are on their way at once. |
| Install.NonOverlappingInstallsKeepOneSigner | internal/install/grcstore.go:80-160 | Installs of a coordinate that do not overlap never record two signers for it, whatever hub and registries answer. |
| Overlap.OneSignerIff | internal/install/grcstore.go:80-160 | From a state in which nothing is recorded for a coordinate and its installs, of different versions, have fetched their index and read no pin: every continuation keeps it at one signer if and only if all of its installs that would be accepted as the first show the same signer. |
| Overlap.OverlappingFirstInstallsRecordTwoSigners | internal/install/grcstore.go:80-160 | From two idle installs of a coordinate that hub and registries can offer in two versions under two signers: a complete run after which both signers are recorded. |
| Witness.TwoSignersAreRecorded | internal/install/grcstore.go:80-160 | Such a run in a concrete world: from an empty manifest and idle installs of ns/id@1 and ns/id@2, over the concrete encoding, to entries signed by alice and by bob. |
| Preflight.MissingFromConfig | internal/install/fromconfig.go:71-121 | In every map order and for every configuration: only what is missing is asked for, and for each name@version key some service with that key resolves or is asked for; all that is missing is asked for when services with one key pin a version together or not at all, and once when one argument means one key, as both are without '@' in plugin fields. |
| Preflight.OneKeyOneNeed | internal/install/fromconfig.go:81-105 | Two services with one key have one argument if and only if both pin a version or neither does, and then they resolve together. |
| Preflight.RunKeepsPoolInv | internal/install/fromconfig.go:37-66 | Under every interleaving of a pool whose hub answers about the plugins it was asked for: finished installs are recorded under the name and version asked for, and everything new was asked for. |
| Preflight.PoolMakesRunnable | internal/install/fromconfig.go:37-121 | After a pool without error a service, whatever the other ones are, resolves when its plugin field is a coordinate and its version is not padded. |
| Preflight.PoolMakesRunnableIff | internal/install/fromconfig.go:37-121 | For any service at all, when the hub's versions have no '@' and no outer space: it resolves afterwards if and only if it did before or its plugin field is a coordinate and its version is not padded. |
| Preflight.PreflightImpliesRunnable | internal/install/fromconfig.go:37-121 | So when the pool was given what the preflight listed and returned no error, every service of a well-formed configuration resolves. |
| Preflight.PlanAfterPreflight | command/run.go:53-85 | End to end: the plan made after that preflight proceeds, with exactly one installed package per service. |
| Preflight.PreflightIsNotEnough | internal/install/fromconfig.go:23-107 | Four services that pass the preflight and stop the run all the same: an empty plugin field, a padded one, a version with a trailing space, and a plugin field pinned with @version; the first needs nothing, the others have the plugin installed that they name without padding and pin. |
| Witness.PinnedFieldDoesNotRun | internal/install/fromconfig.go:23-107 | A concrete run: from an empty manifest and one service with plugin field ns/id@1, the preflight asks for it, the pool installs ns/id version 1 without error, and the service does not resolve. |
| Preflight.PluginPkg.New | command/types.go:96-111 | A package is installed exactly when the manifest loads and has the version, or any version when none is pinned; its path is then that of the pinned entry, or of one that Latest picks. |
| Preflight.PluginPkg.GetBinary | command/types.go:52-68 | A path is found exactly when the name and version resolve, in every iteration order of the manifest. |
| Preflight.ResolvedEntry | command/types.go:52-68 | A resolved path is that of the entry of exactly the pinned version, and without one of an entry of the name above which no other is. |
| Preflight.PinnedServicesRunApart | command/types.go:52-68 | After any run of installs, services that pin different versions or name different plugins never have one binary started. |
| Preflight.GetRequestedPlugins | command/list.go:147-158 | In every map order one requested package per service, with the plugin and version it asks for and the path these resolve to. |
| Preflight.GetPlugins | command/list.go:188-197 | The requested packages come first; every installed plugin is shown under its name, once, unless a requested package has that name. |
| Preflight.PlanRun | command/run.go:53-67 | All requested packages in order; bad usage exactly when one is not installed, and then the first such is named; nothing to run exactly when the list is empty. |
| Preflight.Plan | command/run.go:53-85 | Bad usage if and only if some service does not resolve, no tests exactly when nothing is configured or installed, and otherwise one package per service, each with the path its plugin and version resolve to. |
| Run.RunAll | command/run.go:76-119 | The exit code is as severe as the worst outcome and comes from an outcome; a plugin that cannot be started ends the run. |
| Run.ExitIgnoresOrder | command/run.go:27-39 | The exit code does not depend on the order in which services are run. |
| Run.PassesIff | command/run.go:27-39 | A run passes exactly when every plugin started and none returned a failing code; plugins that abort or find no tests do not fail it. |
| Run.ExitIs | command/run.go:27-39 | The code is 3 when some plugin could not be started or failed internally, else 4 when some reported bad usage, else 1 when some test failed, else 0. |
| Changes.Change.Precheck | pluginkit/change.go:154-167 | Passes exactly when both callbacks, both texts and no earlier error are there. |
| Changes.Change.Apply | pluginkit/change.go:107-130 | The whole new state of a change after applying it; success means that it now stands without error. |
| Changes.Change.Revert | pluginkit/change.go:134-150 | The whole new state of a change after reverting it. |
| Changes.ChangeManager.ApplyChange | pluginkit/change.go:67-80 | The manager's new state: only the named change moves, only when changes are allowed, and corruption is taken over. |
| Changes.ChangeManager.RevertEveryChange | pluginkit/change.go:95-102 | Whatever the order of the map, every change is reverted once and the flag is set if any is corrupted. |
| Changes.ChangeManager.AddChange | pluginkit/change.go:52-57 | The manager keeps a copy of its own under the name. |
| Changes.ChangeManager.Perform | pluginkit/change.go:47-102 | Any sequence of calls has the effect of performing them one after another. |
| Changes.PerformAllKeepsInv | pluginkit/change.go:67-167 | Over every run: the flags agree with the history of callback calls, and the manager is corrupted exactly when some change is. |
| Changes.RevertOrReportIff | pluginkit/change.go:67-167 | After reverting all, a change is left applied and unreported if and only if some call applied it under an empty target name. |
| Changes.RevertOrReport | pluginkit/change.go:67-167 | With target names that are not empty, after every run everything is reverted or the manager reports corruption. |
| Changes.NamelessIff | pluginkit/change.go:107-130 | A change stands without a target name if and only if some call applied it so: nothing else leads there and nothing leads away. |
| Changes.LeftUnreportedIff | pluginkit/change.go:134-167 | One revert leaves a change applied and unreported exactly when it stands without a target name. |
| Changes.CorruptedIff | pluginkit/change.go:67-150 | The manager's flag is set exactly when some callback has answered with an error. |
| Changes.EmptyTargetNameIsLost | pluginkit/change.go:120-160 | A concrete run: applied under an empty name, reverted, still applied, nothing reported. |
| Changes.ErrorFreezes | pluginkit/change.go:107-167 | Once a change has an error, no callback runs again and its flags are frozen, whatever is called. |
| Changes.AppliesAlternate | pluginkit/change.go:107-150 | Between two successful applies there is a successful revert, over every run. |
| Changes.RevertsAgain | pluginkit/change.go:134-150 | A reverted change is reverted again, and is reported corrupted if that fails though nothing was left applied. |
| Changes.RevertGetsAppliedObject | pluginkit/change.go:107-150 | Over every run each call of the revert callback comes after one of the apply callback and is given exactly the object that the last of these returned. |
| Suite.EvaluationSuite.AddChangeManager | pluginkit/evaluation_suite.go:47-52 | Only an invasive configuration attaches the manager, and attaching it allows changes. |
| Suite.EvaluationSuite.SetupEvalLog | pluginkit/evaluation_suite.go:222-288 | The log has one evaluation per control with requirements and one assessment per requirement; it fails exactly without steps or requirements. |
| Suite.LogIsLaidOut | pluginkit/evaluation_suite.go:222-288 | The log has the controls with requirements in order and their requirements in order, each with its registered steps, not run, or unknown when none is registered. |
| Suite.EvaluationSuite.RestoreSteps | pluginkit/evaluation_suite.go:152-161 | In benchmark mode every assessment gets its registered steps back. |
| Suite.EvaluationSuite.RunLoop | pluginkit/evaluation_suite.go:86-127 | The loop processes evaluations in order, writes what it records into the log, aggregates the result, updates the counters, and stops as soon as the manager is corrupted. |
| Suite.EvaluationSuite.Evaluate | pluginkit/evaluation_suite.go:56-149 | Which error, and nothing changed, when the suite cannot run; otherwise result, counters, manager, error and the log with what was recorded in it, recommendations included, as the loop and the final revert leave them. |
| Suite.CountersAddUp | pluginkit/evaluation_suite.go:86-127 | Counter increments plus verdicts that did not run equal the evaluations processed, which are all of them unless the manager became corrupted. |
| Suite.CountersMatchLog | pluginkit/evaluation_suite.go:86-127 | The counters count the results recorded in the processed part of the log, the suite's result is their aggregation from the left, starting from the result before, and what was not processed is as it was laid out. |
| Suite.FailureSticks | pluginkit/evaluation_suite.go:86-90 | When failures absorb under aggregation, one processed failure makes the suite fail, whatever comes after. |
| Suite.LoopRunsInOrder | pluginkit/evaluation_suite.go:86-127 | The evaluations run in order, each from where the one before left off, up to the first after which the manager is corrupted or else to the last. |
| Suite.AssessmentsRunInOrder | pluginkit/evaluation_suite.go:86-90 | Within an evaluation the assessments run in order, knowing how those before them went; one that does not apply runs nothing. |
| Suite.StepsRunInOrder | pluginkit/evaluation_suite.go:86-90 | Within an assessment the steps run in order, each in the world that the one before left, until the runner says stop, and their calls on the manager are made in this order. |
| Suite.FinishedMeans | pluginkit/evaluation_suite.go:133-140 | At the end the manager has performed the steps' calls and then reverted everything, and the error is corruption exactly when it is then corrupted. |
| Suite.RecordedIsRecommended | pluginkit/evaluation_suite.go:93-110 | Every assessment that was processed carries the recommendation of its requirement. |
| Suite.LastRecommendationWins | pluginkit/evaluation_suite.go:207-214 | Of requirements that share an id the last one's recommendation is used. |
| Suite.NoErrorMeansReverted | pluginkit/evaluation_suite.go:133-140 | When Evaluate returns no error, no change applied through its manager is left applied, whatever calls the steps made. |
| Suite.BenchmarkPreservesMeaning | pluginkit/evaluation_suite.go:175-198 | Benchmark mode gives the same results, counters, effects and manager calls over the whole loop, one timing more per step run, in order, and after restoring the same recorded log, for every runner, which may decide on an assessment by the ones before it. |
| Suite.TimedStepsRunAlike | pluginkit/evaluation_suite.go:175-198 | For a runner that may stop after any outcome and for anything that went before, timed steps give the plain steps' outcomes and one timing for each, by index and name. |
| Suite.RestoredLog | pluginkit/evaluation_suite.go:151-161 | After restoring, the log with every outcome and result recorded in it is the one that the loop leaves without benchmark mode. |
| Publish.ImportedMembers | pluginkit/evaluation_orchestrator.go:206-227 | The imported controls are exactly the first of each listed id in each known catalog referred to. |
| Publish.ImportedInOrder | pluginkit/evaluation_orchestrator.go:206-227 | Imports are taken one after the other. |
| Publish.Orchestrator.GetImportedControls | pluginkit/evaluation_orchestrator.go:206-227 | The nested loops collect the imported controls in order. |
| Publish.Orchestrator.Register | pluginkit/evaluation_orchestrator.go:170-203 | A catalog is registered once; its suite has its own and then the imported controls; imports go into a fresh copy and no catalog changes. |
| Publish.Orchestrator.AddEvaluationSuite | pluginkit/evaluation_orchestrator.go:137-152 | Registration succeeds exactly for a known catalog with controls and an id. |
| Publish.Orchestrator.RegisterAll | pluginkit/evaluation_orchestrator.go:130-203 | No sequence of registrations changes what the manifest is made from. |
| Publish.RequirementIdsAreOwn | pluginkit/publish_manifest.go:84-99 | The published ids are sorted, distinct and exactly the catalog's own non-empty control ids. |
| Publish.NameTellsCatalog | pluginkit/publish_manifest.go:108-125 | A namespace without '/' makes the published catalog name determine namespace and id. |
| Publish.Orchestrator.Publish | pluginkit/publish_manifest.go:57-134 | In every map order, and however the sort treats ties: success exactly when everything is publishable, and then one entry per catalog, sorted; a failure names what is missing, the fields in their order and of a catalog its version, its controls or its namespace. |
| Publish.CanPublishIff | pluginkit/publish_manifest.go:57-134 | Publishing succeeds if and only if publisher, plugin name and license are there, the first two without '/', and there are catalogs, each with a version, a control with an id, and a namespace without '/': the override when there is one, and only otherwise the author. |
| Publish.PublishedDeclares | pluginkit/publish_manifest.go:84-128 | Every published entry declares a catalog: named by its override or else its author, never the publisher, with its version and exactly its own ids, sorted. |
| Publish.PublishedOnce | pluginkit/publish_manifest.go:84-131 | Every catalog is declared by exactly one entry. |
| Publish.PublishedInOrder | pluginkit/publish_manifest.go:129-131 | The entries are in the order of their names. |
| Publish.PublishIsDeterministic | pluginkit/publish_manifest.go:57-134 | Any two results for the same inputs both fail or are the same manifest. |
| Publish.PublishAroundRegistrations | pluginkit/publish_manifest.go:84-87 | Publishing before and after any registrations gives the same. |
| DeviceFlow.StartDeviceFlow | internal/auth/oidc.go:107-117 | The server's interval is kept when it is at least one, and five seconds stand for any other. |
| DeviceFlow.PollForToken | internal/auth/oidc.go:130-185 | Terminates in every environment in which each round takes time, with the first round that ends it: past the deadline, cancelled, or an answer other than pending and slow_down, in this order. |
| DeviceFlow.OutcomeIs | internal/auth/oidc.go:130-185 | Past the lifetime, with half an hour for none, the code has expired; before it a cancellation counts; and else the last answer gives credentials, denial, expiry or failure, each for its own answer, after nothing but pending and slow_down. |
| DeviceFlow.AlwaysEndsIff | internal/auth/oidc.go:113-185 | The polling ends whatever the environment does if and only if the interval is positive, which StartDeviceFlow sees to. |
| DeviceFlow.PollsAreWellTimed | internal/auth/oidc.go:130-173 | Every poll of a run, for every interval, was sent after a check against the deadline and after waiting out the interval then due. |
| DeviceFlow.WaitBeforePoll | internal/auth/oidc.go:143-173 | Each poll waits the first interval plus five seconds for each slow_down before it (section 3.5 of RFC 8628). |
| DeviceFlow.PollingIsBounded | internal/auth/oidc.go:130-185 | n polls fit n - 1 intervals into the lifetime; s slow_downs fit the growing intervals before them, a quadratic bound. |
| DeviceFlow.EveryRunIsBounded | internal/auth/oidc.go:130-185 | So every run of the loop keeps within both bounds, whatever the server, the clock and the user do. |
| DeviceFlow.DefaultBounds | internal/auth/oidc.go:113-139 | With the default interval and lifetime: at most 361 polls and 27 slow_downs. |
| Breakdown.RenderRows | command/harness/benchmark.go:240-287 | The nested loops, the stable sort and the trailing row produce the breakdown. |
| Breakdown.RowsConserveTime | command/harness/benchmark.go:240-287 | The rows' durations sum to the larger of the total and the loaders plus each suite's larger of its duration and its steps. |
| Breakdown.RowsAreStablySorted | command/harness/benchmark.go:280-287 | The rows of the segments are the collected rows by falling cost, ties in their order. |
| Breakdown.UnattributedComesLast | command/harness/benchmark.go:280-287 | After the rows of the segments comes at most one row, for a positive time that nothing accounts for. |
| Breakdown.SegmentsAreMeasured | command/harness/benchmark.go:240-279 | The rows before it are exactly those of the loaders, of what a suite took beyond its steps when that is positive, and of the steps, with the catalog when there are several suites. |
| Breakdown.RoundingIsClose | command/harness/benchmark.go:299-311 | A printed duration is off by at most half its unit, halves going up, 10 ms from a second on, 100 us from a millisecond and 1 us from a microsecond, and no 64-bit duration overflows in rounding. |
| Breakdown.FormatKeepsOrder | command/harness/benchmark.go:299-311 | Rounding never reorders two durations, across the changes of unit too. |
| Breakdown.PrintedRowsFall | command/harness/benchmark.go:280-311 | So the printed column falls as the rows do. |

## Left out

Of the repository:

- Sigstore, Fulcio, Rekor and the trusted root: an oracle from a bundle and a digest to an identity or failure.
- Signing itself, and of what oras packs around a signature's layer its annotations and creation time; an honest listing of referrers is a hypothesis where one is needed.
- HTTP, the registry client and token exchange, hub discovery, login prompts and the browser: their answers are parameters.
- JSON and YAML syntax, SPDX and identity canonicalization: documents are encoded by any codec with the round-trip law.
- SHA-256: the hash is a parameter, and freedom from collisions is assumed of the byte strings involved in a claim, never of all.
- The media type spellings and the grc-store-protocol package, whose files are not part of this model.
- The file system beyond atomic replacement: permissions, temporary names, the Windows suffix, and the check that a path stays inside the binaries directory.
- go-plugin processes: only the plan and the fold of exit codes.
- go-gemara: what a runner makes of the outcomes of steps is a parameter; aggregation is an arbitrary operator.
- The exit code of suite errors, which the orchestrator only logs.
- Error texts, log lines, list tables, result files, wall-clock values, and the share column of the breakdown.
- AI adapters, plugin templates, command flags and configuration precedence.
- `AddFunctions` and direct writes to the exported maps and fields, which can replace the callbacks of a change already applied.
- Calls on a change manager made by callbacks of that same manager.
- Registering for all catalogs at once, which visits them in map order and stops at the first failure.

Of what is modelled:

- DeviceFlow.PollForToken: does not model the 64-bit wrap of durations, which needs intervals or lifetimes beyond 292 years; for an interval of zero or less, which StartDeviceFlow never gives, it asks that requests take time.
- Breakdown.RenderRows: does not model the 64-bit wrap of sums of durations.
- Install.PinnedStaysPinned: the program builds a repository reference from the hub's coordinate, which would refuse one with an '@' at the fetch; the form of references is not modelled, so such coordinates are excluded by hypothesis.
- Preflight.GetPlugins: takes the services and the manifest as given for the whole call, although the program reads the manifest again for each package.
- Preflight.RunKeepsPoolInv: takes each commit as one step, as UpdateProtocol.StepsAreAtomicCommits shows it to be on disk, and lets the pool go on after a failure where the program cancels the other installs.
- Preflight.PluginPkg.New: leaves out the command that is queued for the package.
- Suite.EvaluationSuite.Evaluate: the manager receives the calls of an evaluation's steps in order but after the steps, since a step's behaviour is given with its calls; of what is recorded the name, the times and durations of the run are left out; the test for an empty log is gone because a log that was laid out without error is never empty.
- Publish.Orchestrator.Register: does not model the loader and the steps stored with a suite, nor the backing arrays of its controls.
- Install.CommitRecordsVerified: the recorded path is the three parts joined by '/', which is what the program's join gives for coordinates without empty, '.' or '..' parts; the bytes in the file are not modelled.
- Install.StepKeepsPin: the steps of one install are those at which it reads or writes shared state; writing the binary's file is not one of them.
- Verify.Index: the identity is an opaque text that is never empty, as the program checks issuer and subject before it builds one.
