/**
 `PushTo`: writing an assembled index to a content-addressed target, leaves
 first (internal/oci/push.go:57-90). The target keeps what it is given but any
 request may fail, with or without having taken effect.
 */
module Push {
  import opened Wrappers
  import opened Codec
  import opened Assemble

  datatype Entry = Entry(mediaType: MediaType, data: Bytes)

  /** A repository: blobs and manifests by digest, and tags. */
  datatype Store = Store(blobs: map<Digest, Bytes>, manifests: map<Digest, Entry>, tags: map<string, Descriptor>)

  predicate IsManifestType(m: MediaType)
  {
    m == ImageIndex || m == ImageManifest
  }

  predicate Present(s: Store, d: Descriptor)
  {
    if IsManifestType(d.mediaType) then d.digest in s.manifests else d.digest in s.blobs
  }

  datatype Step = Put(blob: Blob) | TagAs(name: string, descriptor: Descriptor)

  /** The effect of one accepted request: content is added when absent, never replaced. */
  function Do(s: Store, step: Step): Store
  {
    match step
    case Put(b) =>
      if Present(s, b.Descriptor()) then s
      else if IsManifestType(b.mediaType) then s.(manifests := s.manifests[b.digest := Entry(b.mediaType, b.data)])
      else s.(blobs := s.blobs[b.digest := b.data])
    case TagAs(name, d) =>
      if d.digest in s.manifests then s.(tags := s.tags[name := d]) else s
  }

  function Run(s: Store, steps: seq<Step>): Store
  {
    if steps == [] then s else Do(Run(s, steps[..|steps| - 1]), steps[|steps| - 1])
  }

  function Puts(bs: seq<Blob>): (r: seq<Step>)
    ensures |r| == |bs| && (forall i :: 0 <= i < |bs| ==> r[i] == Put(bs[i]))
  {
    seq(|bs|, i requires 0 <= i < |bs| => Put(bs[i]))
  }

  /** What a push does: blobs, then child manifests, then the index, then the tag. */
  function Steps(idx: AssembledIndex): seq<Step>
  {
    Puts(idx.blobs) + Puts(idx.manifests) + [Put(idx.index), TagAs(idx.version, idx.index.Descriptor())]
  }

  // ---------------------------------------------------------------------
  // The program, over a target whose requests may fail

  /** A request works, is refused, or takes effect although its reply is lost. */
  datatype Fault = Works | Refused | ReplyLost

  class Target {
    var store: Store
    const faults: nat -> Fault
    const rejectsDuplicates: bool  // whether pushing content that is there already is an error
    var requests: nat

    constructor (s: Store, faults: nat -> Fault, rejectsDuplicates: bool)
      ensures store == s && this.faults == faults && this.rejectsDuplicates == rejectsDuplicates
    {
      this.store := s;
      this.faults := faults;
      this.rejectsDuplicates := rejectsDuplicates;
      this.requests := 0;
    }

    ghost predicate Faultless()
    {
      forall n :: faults(n) == Works
    }

    method Exists(d: Descriptor) returns (r: Result<bool, ()>)
      modifies this`requests
      ensures r.Ok? ==> r.value == Present(store, d)
      ensures requests == old(requests) + 1 && (r.Ok? <==> faults(old(requests)) == Works)
    {
      r := if faults(requests) == Works then Ok(Present(store, d)) else Err(());
      requests := requests + 1;
    }

    method Push(b: Blob) returns (ok: bool)
      modifies this`requests, this`store
      ensures store == old(store) || store == Do(old(store), Put(b))
      ensures ok ==> store == Do(old(store), Put(b))
      ensures requests == old(requests) + 1
      ensures ok <==>
        faults(old(requests)) == Works && !(rejectsDuplicates && Present(old(store), b.Descriptor()))
    {
      var fault := faults(requests);
      requests := requests + 1;
      ok := fault == Works && !(rejectsDuplicates && Present(store, b.Descriptor()));
      if fault != Refused {
        store := Do(store, Put(b));
      }
    }

    method Tag(name: string, d: Descriptor) returns (ok: bool)
      modifies this`requests, this`store
      ensures store == old(store) || store == Do(old(store), TagAs(name, d))
      ensures ok ==> store == Do(old(store), TagAs(name, d)) && d.digest in store.manifests
      ensures Faultless() && d.digest in old(store).manifests ==> ok
    {
      var fault := faults(requests);
      requests := requests + 1;
      ok := fault == Works && d.digest in store.manifests;
      if fault != Refused {
        store := Do(store, TagAs(name, d));
      }
    }
  }

  /** Push unless the target says the content is there; a failed existence check still pushes. */
  method PushBlobTo(target: Target, b: Blob) returns (ok: bool)
    modifies target`requests, target`store
    ensures target.store == old(target.store) || target.store == Do(old(target.store), Put(b))
    ensures ok ==> target.store == Do(old(target.store), Put(b))
    ensures target.Faultless() ==> ok
    ensures target.faults(old(target.requests)) == Works && Present(old(target.store), b.Descriptor()) ==>
      ok && target.store == old(target.store)
    ensures !(target.faults(old(target.requests)) == Works && Present(old(target.store), b.Descriptor())) ==>
      ok == (target.faults(old(target.requests) + 1) == Works &&
        !(target.rejectsDuplicates && Present(old(target.store), b.Descriptor())))
  {
    var exists_ := target.Exists(b.Descriptor());
    if exists_.Ok? && exists_.value {
      return true;
    }
    ok := target.Push(b);
  }

  /** The first `k` steps lead from `s` to `t`. */
  ghost predicate Reached(s: Store, steps: seq<Step>, k: int, t: Store)
  {
    0 <= k <= |steps| && t == Run(s, steps[..k])
  }

  /**
   Whatever fails, the target has received some prefix of the steps; success
   means all of them, and only success returns the index digest.
   */
  method PushTo(idx: AssembledIndex, target: Target) returns (r: Result<Digest, ()>)
    modifies target`requests, target`store
    ensures r.Ok? ==> r.value == idx.index.digest && target.store == Run(old(target.store), Steps(idx))
    ensures exists k :: Reached(old(target.store), Steps(idx), k, target.store)
    ensures target.Faultless() && IsManifestType(idx.index.mediaType) ==> r.Ok?
  {
    StepsLayout(idx);
    r := PushInOrder(idx, target, Steps(idx));
  }

  /** From step `n` on these blobs are put. */
  ghost predicate PutsAt(steps: seq<Step>, n: nat, bs: seq<Blob>)
  {
    n + |bs| <= |steps| && forall i :: 0 <= i < |bs| ==> steps[n + i] == Put(bs[i])
  }

  /** The steps are the blobs, the manifests, the index and the tag, in this order. */
  ghost predicate Layout(idx: AssembledIndex, steps: seq<Step>)
  {
    var n, m := |idx.blobs|, |idx.manifests|;
    && |steps| == n + m + 2
    && PutsAt(steps, 0, idx.blobs) && PutsAt(steps, n, idx.manifests) && PutsAt(steps, n + m, [idx.index])
    && steps[n + m] == Put(idx.index) && steps[n + m + 1] == TagAs(idx.version, idx.index.Descriptor())
  }

  lemma StepsLayout(idx: AssembledIndex)
    ensures Layout(idx, Steps(idx))
  {
  }

  method PushInOrder(idx: AssembledIndex, target: Target, ghost steps: seq<Step>) returns (r: Result<Digest, ()>)
    requires Layout(idx, steps)
    modifies target`requests, target`store
    ensures r.Ok? ==> r.value == idx.index.digest && target.store == Run(old(target.store), steps)
    ensures exists k :: Reached(old(target.store), steps, k, target.store)
    ensures target.Faultless() && IsManifestType(idx.index.mediaType) ==> r.Ok?
  {
    ghost var before := target.store;
    assert steps[..0] == [];
    var ok := PushContents(idx, target, before, steps);
    if !ok {
      return Err(());
    }
    PutIsPresent(before, steps, |steps| - 2, |steps| - 1);
    ok := TagLast(target, idx.version, idx.index.Descriptor(), before, steps);
    r := if ok then Ok(idx.index.digest) else Err(());
  }

  /** Blobs, child manifests, index. */
  method PushContents(
      idx: AssembledIndex, target: Target, ghost before: Store, ghost steps: seq<Step>) returns (ok: bool)
    requires Layout(idx, steps) && Reached(before, steps, 0, target.store)
    modifies target`requests, target`store
    ensures ok ==> Reached(before, steps, |steps| - 1, target.store)
    ensures exists k :: Reached(before, steps, k, target.store)
    ensures target.Faultless() ==> ok
  {
    ok := PushAll(target, idx.blobs, before, steps, 0);
    if !ok {
      return;
    }
    ok := PushAll(target, idx.manifests, before, steps, |idx.blobs|);
    if !ok {
      return;
    }
    ok := PushAll(target, [idx.index], before, steps, |idx.blobs| + |idx.manifests|);
  }

  method TagLast(
      target: Target, name: string, d: Descriptor, ghost before: Store, ghost steps: seq<Step>) returns (ok: bool)
    requires steps != [] && steps[|steps| - 1] == TagAs(name, d)
    requires Reached(before, steps, |steps| - 1, target.store)
    modifies target`requests, target`store
    ensures ok ==> target.store == Run(before, steps)
    ensures exists k :: Reached(before, steps, k, target.store)
    ensures target.Faultless() && d.digest in old(target.store).manifests ==> ok
  {
    RunStep(before, steps, |steps| - 1);
    assert steps[..|steps|] == steps;
    ok := target.Tag(name, d);
    assert Reached(before, steps, |steps| - 1, target.store) || Reached(before, steps, |steps|, target.store);
  }

  /** Push blobs in order until one fails. */
  method PushAll(
      target: Target, bs: seq<Blob>, ghost before: Store, ghost steps: seq<Step>, ghost n: nat) returns (ok: bool)
    requires PutsAt(steps, n, bs)
    requires Reached(before, steps, n, target.store)
    modifies target`requests, target`store
    ensures ok ==> Reached(before, steps, n + |bs|, target.store)
    ensures exists k :: Reached(before, steps, k, target.store)
    ensures target.Faultless() ==> ok
  {
    for i := 0 to |bs|
      invariant Reached(before, steps, n + i, target.store)
    {
      RunStep(before, steps, n + i);
      ok := PushBlobTo(target, bs[i]);
      assert Reached(before, steps, n + i, target.store) || Reached(before, steps, n + i + 1, target.store);
      if !ok {
        return;
      }
    }
    ok := true;
  }

  lemma RunStep(s: Store, steps: seq<Step>, k: nat)
    requires k < |steps|
    ensures Run(s, steps[..k+1]) == Do(Run(s, steps[..k]), steps[k])
  {
    assert steps[..k+1][..k] == steps[..k];
  }

  // ---------------------------------------------------------------------
  // Reference closure

  /** Everything a manifest or index names is among the given blobs and manifests. */
  predicate RefsWithin(w: Wire, blobs: set<Digest>, manifests: set<Digest>, e: Entry)
  {
    match e.mediaType
    case ImageManifest =>
      (match w.decodeManifest(e.data)
       case None => true
       case Some(m) => m.config.digest in blobs && forall l :: l in m.layers ==> l.digest in blobs)
    case ImageIndex =>
      (match w.decodeIndex(e.data)
       case None => true
       case Some(x) => forall c :: c in x.manifests ==> c.digest in manifests)
    case _ => true
  }

  predicate RefsMet(w: Wire, s: Store, e: Entry)
  {
    RefsWithin(w, s.blobs.Keys, s.manifests.Keys, e)
  }

  /** Every stored document is complete and every tag names a stored document. */
  ghost predicate Closed(w: Wire, s: Store)
  {
    && (forall d :: d in s.manifests ==> RefsMet(w, s, s.manifests[d]))
    && (forall t :: t in s.tags ==> s.tags[t].digest in s.manifests)
  }

  ghost predicate Extends(s: Store, s': Store)
  {
    s.blobs.Keys <= s'.blobs.Keys && s.manifests.Keys <= s'.manifests.Keys
  }

  lemma {:induction false} RunExtends(s: Store, steps: seq<Step>, j: nat, k: nat)
    requires j <= k <= |steps|
    ensures Extends(Run(s, steps[..j]), Run(s, steps[..k]))
    decreases k
  {
    if j < k {
      RunExtends(s, steps, j, k - 1);
      RunStep(s, steps, k - 1);
    }
  }

  /** Each step's references are put by earlier steps. */
  ghost predicate LeavesFirst(w: Wire, s: Store, steps: seq<Step>)
  {
    forall k :: 0 <= k < |steps| ==> Ready(w, Run(s, steps[..k]), steps[k])
  }

  ghost predicate Ready(w: Wire, s: Store, step: Step)
  {
    match step
    case Put(b) => RefsMet(w, s, Entry(b.mediaType, b.data))
    case TagAs(_, d) => d.digest in s.manifests
  }

  lemma DoKeepsClosed(w: Wire, s: Store, step: Step)
    requires Closed(w, s) && Ready(w, s, step)
    ensures Closed(w, Do(s, step))
  {
    var s' := Do(s, step);
    forall d | d in s'.manifests ensures RefsMet(w, s', s'.manifests[d]) {
      if d in s.manifests {
        assert s'.manifests[d] == s.manifests[d];
        assert RefsMet(w, s, s.manifests[d]);
      }
    }
  }

  lemma {:induction false} LeavesFirstKeepsClosed(w: Wire, s: Store, steps: seq<Step>, k: nat)
    requires Closed(w, s) && LeavesFirst(w, s, steps) && k <= |steps|
    ensures Closed(w, Run(s, steps[..k]))
  {
    if k > 0 {
      LeavesFirstKeepsClosed(w, s, steps, k - 1);
      RunStep(s, steps, k - 1);
      assert Ready(w, Run(s, steps[..k-1]), steps[k-1]);
      DoKeepsClosed(w, Run(s, steps[..k-1]), steps[k-1]);
    }
  }

  /** Once a step was taken its content is present. */
  lemma PutIsPresent(s: Store, steps: seq<Step>, i: nat, k: nat)
    requires i < k <= |steps| && steps[i].Put?
    ensures Present(Run(s, steps[..k]), steps[i].blob.Descriptor())
  {
    RunStep(s, steps, i);
    RunExtends(s, steps, i + 1, k);
  }

  /** What the push needs of an index: the assembled ones have it (`AssembledIsCoherent`). */
  ghost predicate Coherent(w: Wire, idx: AssembledIndex)
  {
    && (forall b :: b in idx.blobs ==> !IsManifestType(b.mediaType) && b.digest == w.hash(b.data))
    && (forall b :: b in idx.manifests ==>
          && b.mediaType == ImageManifest && b.digest == w.hash(b.data)
          && RefsWithin(w, Digests(idx.blobs), {}, Entry(ImageManifest, b.data)))
    && idx.index.mediaType == ImageIndex && idx.index.digest == w.hash(idx.index.data)
    && RefsWithin(w, {}, Digests(idx.manifests), Entry(ImageIndex, idx.index.data))
  }

  lemma BlobsPresent(s: Store, idx: AssembledIndex, k: nat)
    requires |idx.blobs| <= k <= |Steps(idx)|
    requires forall b :: b in idx.blobs ==> !IsManifestType(b.mediaType)
    ensures Digests(idx.blobs) <= Run(s, Steps(idx)[..k]).blobs.Keys
  {
    forall b | b in idx.blobs ensures b.digest in Run(s, Steps(idx)[..k]).blobs {
      var i :| 0 <= i < |idx.blobs| && idx.blobs[i] == b;
      assert Steps(idx)[i] == Put(b);
      PutIsPresent(s, Steps(idx), i, k);
    }
  }

  lemma ManifestsPresent(s: Store, idx: AssembledIndex, k: nat)
    requires |idx.blobs| + |idx.manifests| <= k <= |Steps(idx)|
    requires forall b :: b in idx.manifests ==> b.mediaType == ImageManifest
    ensures Digests(idx.manifests) <= Run(s, Steps(idx)[..k]).manifests.Keys
  {
    forall b | b in idx.manifests ensures b.digest in Run(s, Steps(idx)[..k]).manifests {
      var i :| 0 <= i < |idx.manifests| && idx.manifests[i] == b;
      assert Steps(idx)[|idx.blobs| + i] == Put(b);
      PutIsPresent(s, Steps(idx), |idx.blobs| + i, k);
    }
  }

  /** The order of the push meets every reference before it is made. */
  lemma StepsAreLeavesFirst(w: Wire, idx: AssembledIndex, s: Store)
    requires Coherent(w, idx)
    ensures LeavesFirst(w, s, Steps(idx))
  {
    var steps, n, m := Steps(idx), |idx.blobs|, |idx.manifests|;
    forall k | 0 <= k < |steps| ensures Ready(w, Run(s, steps[..k]), steps[k]) {
      if k < n {
        assert steps[k] == Put(idx.blobs[k]) && idx.blobs[k] in idx.blobs;
      } else if k < n + m {
        assert steps[k] == Put(idx.manifests[k - n]) && idx.manifests[k - n] in idx.manifests;
        BlobsPresent(s, idx, k);
      } else if k == n + m {
        assert steps[k] == Put(idx.index);
        ManifestsPresent(s, idx, k);
      } else {
        assert steps[n + m] == Put(idx.index) && steps[k] == TagAs(idx.version, idx.index.Descriptor());
        PutIsPresent(s, steps, n + m, k);
      }
    }
  }

  lemma ManifestRefsWithin(w: Wire, p: Params, files: Files, b: PlatformBinary)
    requires Lawful(w) && b in p.binaries
    ensures RefsWithin(w, Digests(Assembled(w, p, files).blobs), {},
      Entry(ImageManifest, ManifestBlob(w, p, files, b).data))
  {
    AssembledBlobs(w, p, files);
    var m := ManifestOf(ConfigBlob(w, p, b), BinaryBlob(w, files, b));
    assert w.decodeManifest(w.encodeManifest(m)) == Some(m);
  }

  lemma IndexRefsWithin(w: Wire, p: Params, files: Files)
    requires Lawful(w)
    ensures var idx := Assembled(w, p, files);
      RefsWithin(w, {}, Digests(idx.manifests), Entry(ImageIndex, idx.index.data))
  {
    var manifests := Manifests(w, p, files, p.binaries);
    var x := IndexOf(w, p, files);
    assert w.decodeIndex(w.encodeIndex(x)) == Some(x);
    forall c | c in x.manifests ensures c.digest in Digests(manifests) {
      var i :| 0 <= i < |p.binaries| && x.manifests[i] == c;
      assert manifests[i] in manifests;
    }
  }

  lemma LeavesAreBlobs(w: Wire, p: Params, files: Files)
    ensures forall b :: b in Assembled(w, p, files).blobs ==> !IsManifestType(b.mediaType) && b.digest == w.hash(b.data)
  {
    AssembledBlobs(w, p, files);
    forall b | b in Assembled(w, p, files).blobs ensures !IsManifestType(b.mediaType) && b.digest == w.hash(b.data) {
      assert LeafOf(w, p, files, p.binaries, b);
    }
  }

  lemma AssembledIsCoherent(w: Wire, p: Params, files: Files)
    requires Lawful(w)
    ensures Coherent(w, Assembled(w, p, files))
  {
    var idx := Assembled(w, p, files);
    LeavesAreBlobs(w, p, files);
    IndexRefsWithin(w, p, files);
    forall b | b in idx.manifests
      ensures b.mediaType == ImageManifest && b.digest == w.hash(b.data)
      ensures RefsWithin(w, Digests(idx.blobs), {}, Entry(ImageManifest, b.data))
    {
      ManifestIsCoherent(w, p, files, b);
    }
  }

  lemma ManifestIsCoherent(w: Wire, p: Params, files: Files, b: Blob)
    requires Lawful(w) && b in Assembled(w, p, files).manifests
    ensures b.mediaType == ImageManifest && b.digest == w.hash(b.data)
    ensures RefsWithin(w, Digests(Assembled(w, p, files).blobs), {}, Entry(ImageManifest, b.data))
  {
    var i :| 0 <= i < |p.binaries| && Assembled(w, p, files).manifests[i] == b;
    ManifestRefsWithin(w, p, files, p.binaries[i]);
  }

  /**
   After any prefix of a push, hence after a failure at any step, the store
   names nothing it does not hold and no tag points at an incomplete index.
   */
  lemma EveryPrefixIsClosed(w: Wire, p: Params, files: Files, s: Store, k: nat)
    requires Lawful(w) && Closed(w, s) && k <= |Steps(Assembled(w, p, files))|
    ensures Closed(w, Run(s, Steps(Assembled(w, p, files))[..k]))
  {
    var idx := Assembled(w, p, files);
    AssembledIsCoherent(w, p, files);
    StepsAreLeavesFirst(w, idx, s);
    LeavesFirstKeepsClosed(w, s, Steps(idx), k);
  }

  // ---------------------------------------------------------------------
  // Pushing again

  /** A step that would change nothing. */
  predicate Settled(s: Store, step: Step)
  {
    match step
    case Put(b) => Present(s, b.Descriptor())
    case TagAs(name, d) => d.digest in s.manifests && name in s.tags && s.tags[name] == d
  }

  /** Only the last step sets a tag. */
  predicate TagsLast(steps: seq<Step>)
  {
    forall i :: 0 <= i < |steps| - 1 ==> steps[i].Put?
  }

  lemma {:induction false} TakenStepsAreSettled(s: Store, steps: seq<Step>, i: nat, k: nat)
    requires TagsLast(steps) && i < k <= |steps|
    requires steps[i].TagAs? ==> steps[i].descriptor.digest in Run(s, steps[..i]).manifests
    ensures Settled(Run(s, steps[..k]), steps[i])
  {
    if steps[i].Put? {
      PutIsPresent(s, steps, i, k);
    } else {
      RunStep(s, steps, i);
    }
  }

  lemma {:induction false} SettledRunsAway(s: Store, steps: seq<Step>)
    requires forall i :: 0 <= i < |steps| ==> Settled(s, steps[i])
    ensures Run(s, steps) == s
  {
    if steps != [] {
      SettledRunsAway(s, steps[..|steps| - 1]);
      var last := steps[|steps| - 1];
      assert Settled(s, last);
      match last {
        case Put(_) =>
        case TagAs(name, d) => assert s.tags[name := d] == s.tags;
      }
    }
  }

  lemma {:induction false} RunConcat(s: Store, xs: seq<Step>, ys: seq<Step>)
    ensures Run(s, xs + ys) == Run(Run(s, xs), ys)
  {
    if ys == [] {
      assert xs + ys == xs;
    } else {
      RunConcat(s, xs, ys[..|ys| - 1]);
      assert (xs + ys)[..|xs + ys| - 1] == xs + ys[..|ys| - 1];
    }
  }

  /** Starting over after a prefix and getting further or less far is reaching the longer prefix. */
  lemma PrefixesJoin(w: Wire, s: Store, steps: seq<Step>, j: nat, k: nat)
    requires TagsLast(steps) && LeavesFirst(w, s, steps) && j <= |steps| && k <= |steps|
    ensures Run(Run(s, steps[..j]), steps[..k]) == Run(s, steps[..if j < k then k else j])
  {
    var s' := Run(s, steps[..j]);
    var m := if j < k then j else k;
    forall i | 0 <= i < m ensures Settled(s', steps[..m][i]) {
      assert Ready(w, Run(s, steps[..i]), steps[i]);
      TakenStepsAreSettled(s, steps, i, j);
    }
    SettledRunsAway(s', steps[..m]);
    if j < k {
      RunInTwo(s', steps, j, k);
      RunInTwo(s, steps, j, k);
    }
  }

  lemma RunInTwo(s: Store, steps: seq<Step>, j: nat, k: nat)
    requires j <= k <= |steps|
    ensures Run(s, steps[..k]) == Run(Run(s, steps[..j]), steps[j..k])
  {
    assert steps[..k] == steps[..j] + steps[j..k];
    RunConcat(s, steps[..j], steps[j..k]);
  }

  /** Interrupted attempts: each starts over and gets as far as its entry says. */
  function Attempts(s: Store, steps: seq<Step>, reached: seq<nat>): Store
    requires forall i :: 0 <= i < |reached| ==> reached[i] <= |steps|
  {
    if reached == [] then s
    else
      Run(Attempts(s, steps, reached[..|reached| - 1]), steps[..reached[|reached| - 1]])
  }

  function Furthest(reached: seq<nat>): nat
  {
    if reached == [] then 0
    else
      var rest, last := Furthest(reached[..|reached| - 1]), reached[|reached| - 1];
      if rest < last then last else rest
  }

  lemma {:induction false} AttemptsReachAPrefix(w: Wire, s: Store, steps: seq<Step>, reached: seq<nat>)
    requires TagsLast(steps) && LeavesFirst(w, s, steps)
    requires forall i :: 0 <= i < |reached| ==> reached[i] <= |steps|
    ensures Furthest(reached) <= |steps|
    ensures Attempts(s, steps, reached) == Run(s, steps[..Furthest(reached)])
  {
    if reached != [] {
      var init, last := reached[..|reached| - 1], reached[|reached| - 1];
      AttemptsReachAPrefix(w, s, steps, init);
      PrefixesJoin(w, s, steps, Furthest(init), last);
    }
  }

  /**
   However often a push was interrupted before, pushing to the end reaches the
   store one uninterrupted push would have reached, and pushing again changes nothing.
   */
  lemma RepushConverges(w: Wire, p: Params, files: Files, s: Store, reached: seq<nat>)
    requires Lawful(w)
    requires forall i :: 0 <= i < |reached| ==> reached[i] <= |Steps(Assembled(w, p, files))|
    ensures var steps := Steps(Assembled(w, p, files));
      && Run(Attempts(s, steps, reached), steps) == Run(s, steps)
      && Run(Run(s, steps), steps) == Run(s, steps)
  {
    AssembledIsCoherent(w, p, files);
    CoherentConverges(w, Assembled(w, p, files), s, reached);
  }

  lemma CoherentConverges(w: Wire, idx: AssembledIndex, s: Store, reached: seq<nat>)
    requires Coherent(w, idx)
    requires forall i :: 0 <= i < |reached| ==> reached[i] <= |Steps(idx)|
    ensures Run(Attempts(s, Steps(idx), reached), Steps(idx)) == Run(s, Steps(idx))
    ensures Run(Run(s, Steps(idx)), Steps(idx)) == Run(s, Steps(idx))
  {
    StepsAreLeavesFirst(w, idx, s);
    AttemptsConverge(w, Steps(idx), s, reached);
  }

  lemma AttemptsConverge(w: Wire, steps: seq<Step>, s: Store, reached: seq<nat>)
    requires TagsLast(steps) && LeavesFirst(w, s, steps)
    requires forall i :: 0 <= i < |reached| ==> reached[i] <= |steps|
    ensures Run(Attempts(s, steps, reached), steps) == Run(s, steps)
    ensures Run(Run(s, steps), steps) == Run(s, steps)
  {
    AttemptsReachAPrefix(w, s, steps, reached);
    assert steps[..|steps|] == steps;
    PrefixesJoin(w, s, steps, Furthest(reached), |steps|);
    PrefixesJoin(w, s, steps, |steps|, |steps|);
  }

  // ---------------------------------------------------------------------
  // What an honest store holds after a complete push

  /** Keys are the digests of what they hold. */
  ghost predicate ContentAddressed(w: Wire, s: Store)
  {
    && (forall d :: d in s.blobs ==> w.hash(s.blobs[d]) == d)
    && (forall d :: d in s.manifests ==> w.hash(s.manifests[d].data) == d)
  }

  function StoredBytes(s: Store): set<Bytes>
  {
    s.blobs.Values + set d | d in s.manifests :: s.manifests[d].data
  }

  function BlobBytes(bs: seq<Blob>): set<Bytes>
  {
    set b | b in bs :: b.data
  }

  function AssembledBytes(idx: AssembledIndex): set<Bytes>
  {
    BlobBytes(idx.blobs) + BlobBytes(idx.manifests) + {idx.index.data}
  }

  ghost predicate WellFormedSteps(w: Wire, steps: seq<Step>)
  {
    forall i :: 0 <= i < |steps| && steps[i].Put? ==> steps[i].blob.digest == w.hash(steps[i].blob.data)
  }

  function StepBytes(steps: seq<Step>): set<Bytes>
  {
    set i | 0 <= i < |steps| && steps[i].Put? :: steps[i].blob.data
  }

  lemma {:induction false} RunHolds(w: Wire, s: Store, steps: seq<Step>)
    requires ContentAddressed(w, s) && WellFormedSteps(w, steps)
    ensures ContentAddressed(w, Run(s, steps))
    ensures StoredBytes(Run(s, steps)) <= StoredBytes(s) + StepBytes(steps)
  {
    if steps != [] {
      var init, last := steps[..|steps| - 1], steps[|steps| - 1];
      RunHolds(w, s, init);
      var t := Run(s, init);
      forall x | x in StepBytes(init) ensures x in StepBytes(steps) {
        var i :| 0 <= i < |init| && init[i].Put? && init[i].blob.data == x;
        assert steps[i] == init[i];
      }
      if last.Put? {
        assert last.blob.data in StepBytes(steps);
        DoHolds(t, last.blob);
      }
    }
  }

  lemma DoHolds(s: Store, b: Blob)
    ensures StoredBytes(Do(s, Put(b))) <= StoredBytes(s) + {b.data}
  {
    var s' := Do(s, Put(b));
    forall x | x in StoredBytes(s') ensures x in StoredBytes(s) + {b.data} {
      if x in s'.blobs.Values {
        var d :| d in s'.blobs && s'.blobs[d] == x;
        assert d == b.digest || (d in s.blobs && s.blobs[d] == x);
      } else {
        var d :| d in s'.manifests && s'.manifests[d].data == x;
        assert d == b.digest || (d in s.manifests && s.manifests[d].data == x);
      }
    }
  }

  lemma CoherentStepsAreWellFormed(w: Wire, idx: AssembledIndex)
    requires Coherent(w, idx)
    ensures WellFormedSteps(w, Steps(idx)) && StepBytes(Steps(idx)) <= AssembledBytes(idx)
  {
    forall i | 0 <= i < |Steps(idx)| && Steps(idx)[i].Put?
      ensures Steps(idx)[i].blob.digest == w.hash(Steps(idx)[i].blob.data)
      ensures Steps(idx)[i].blob.data in AssembledBytes(idx)
    {
      var b := Steps(idx)[i].blob;
      assert b in idx.blobs || b in idx.manifests || b == idx.index by {
        if i < |idx.blobs| {
          assert b == idx.blobs[i];
        } else if i < |idx.blobs| + |idx.manifests| {
          assert b == idx.manifests[i - |idx.blobs|];
        }
      }
    }
  }

  /** The store has the blob's content under its digest. */
  predicate HasContent(s: Store, b: Blob)
  {
    if IsManifestType(b.mediaType) then b.digest in s.manifests && s.manifests[b.digest].data == b.data
    else b.digest in s.blobs && s.blobs[b.digest] == b.data
  }

  /** After steps that put a blob a content-addressed store has its content, whether or not it had some before. */
  lemma PutContent(w: Wire, steps: seq<Step>, s: Store, b: Blob, bytes: set<Bytes>)
    requires ContentAddressed(w, s) && WellFormedSteps(w, steps) && Put(b) in steps
    requires CollisionFree(w, bytes) && StoredBytes(s) + StepBytes(steps) <= bytes
    ensures HasContent(Run(s, steps), b)
  {
    var t := Run(s, steps);
    var i :| 0 <= i < |steps| && steps[i] == Put(b);
    assert steps[..|steps|] == steps;
    PutIsPresent(s, steps, i, |steps|);
    RunHolds(w, s, steps);
    assert b.data in StepBytes(steps);
    if IsManifestType(b.mediaType) {
      assert t.manifests[b.digest].data in StoredBytes(t);
    } else {
      assert t.blobs[b.digest] in t.blobs.Values;
    }
  }

  /** What a content-addressed store holds under a pushed blob's digest is that blob. */
  lemma PushedContent(w: Wire, idx: AssembledIndex, s: Store, b: Blob)
    requires Coherent(w, idx) && ContentAddressed(w, s)
    requires CollisionFree(w, StoredBytes(s) + AssembledBytes(idx))
    requires Put(b) in Steps(idx)
    ensures HasContent(Run(s, Steps(idx)), b)
  {
    CoherentStepsAreWellFormed(w, idx);
    PutContent(w, Steps(idx), s, b, StoredBytes(s) + AssembledBytes(idx));
  }
}
