/**
 The plugin manifest: entries keyed by name@version, and the choice of the
 latest installed version (internal/manifest/manifest.go:17-233).
 */
module Manifest {
  import opened Wrappers
  import opened Ordering
  import Semver

  datatype Plugin = Plugin(
    name: string, version: string, binaryPath: string,
    coordinate: string, indexDigest: string, signerIdentity: string)

  type Plugins = map<string, Plugin>

  function Key(name: string, version: string): string
  {
    name + "@" + version
  }

  /** Keys tell entries apart as long as names contain no '@'. */
  lemma KeyInjective(n1: string, v1: string, n2: string, v2: string)
    requires '@' !in n1 && '@' !in n2 && Key(n1, v1) == Key(n2, v2)
    ensures n1 == n2 && v1 == v2
  {
    var k := Key(n1, v1);
    assert k[|n1|] == '@' && k[|n2|] == '@';
    assert forall i :: 0 <= i < |n1| ==> k[i] == n1[i] && n1[i] in n1;
    assert forall i :: 0 <= i < |n2| ==> k[i] == n2[i] && n2[i] in n2;
    assert |n1| == |n2|;
    assert k[..|n1|] == n1 && k[..|n2|] == n2;
    assert k[|n1| + 1..] == v1 && k[|n2| + 1..] == v2;
  }

  /** One name continues the other after an '@'. */
  predicate Nested(n1: string, n2: string)
  {
    n1 + "@" <= n2 || n2 + "@" <= n1
  }

  /** No entry of the one name has the key of an entry of the other. */
  ghost predicate Apart(n1: string, n2: string)
  {
    forall v1, v2 :: Key(n1, v1) != Key(n2, v2)
  }

  /** Which names can clash: exactly those of which one continues the other after an '@'. */
  lemma KeyClash(n1: string, n2: string)
    ensures (forall v1, v2 :: Key(n1, v1) == Key(n2, v2) ==> n1 == n2 && v1 == v2) <==> n1 == n2 || !Nested(n1, n2)
    ensures n1 != n2 ==> (Apart(n1, n2) <==> !Nested(n1, n2))
  {
    forall v1, v2 | Key(n1, v1) == Key(n2, v2) ensures (n1 == n2 && v1 == v2) || (n1 != n2 && Nested(n1, n2)) {
      OneKeyTwoNames(n1, v1, n2, v2);
    }
    if n1 + "@" <= n2 {
      NestedClash(n1, n2);
    }
    if n2 + "@" <= n1 {
      NestedClash(n2, n1);
    }
  }

  lemma OneKeyTwoNames(n1: string, v1: string, n2: string, v2: string)
    requires Key(n1, v1) == Key(n2, v2)
    ensures (n1 == n2 && v1 == v2) || (n1 != n2 && Nested(n1, n2))
  {
    var k := Key(n1, v1);
    assert k[..|n1|] == n1 && k[..|n2|] == n2 && k[|n1| + 1..] == v1 && k[|n2| + 1..] == v2;
    if |n1| < |n2| {
      assert n1 + "@" == k[..|n1| + 1] == n2[..|n1| + 1];
    } else if |n2| < |n1| {
      assert n2 + "@" == k[..|n2| + 1] == n1[..|n2| + 1];
    }
  }

  lemma NestedClash(n: string, longer: string)
    requires n + "@" <= longer
    ensures n != longer && exists v, w :: Key(n, v) == Key(longer, w) && Key(longer, w) == Key(n, v)
  {
    var rest := longer[|n| + 1..];
    assert longer == n + "@" + rest;
    assert Key(n, rest + "@") == Key(longer, "");
  }

  /** Where keys clash, an entry is found under every name and version with its key. */
  lemma SharedKeyIsFound(m: Plugins, p: Plugin, name: string, version: string)
    requires name + "@" + version == p.name + "@" + p.version
    ensures FindVersion(Added(m, p), name, version) == Some(p)
    ensures FindVersion(WithoutKey(m, Key(p.name, p.version)), name, version) == None
  {
  }

  function Added(m: Plugins, p: Plugin): Plugins
  {
    m[Key(p.name, p.version) := p]
  }

  function WithoutName(m: Plugins, name: string): Plugins
  {
    map k | k in m && m[k].name != name :: m[k]
  }

  function WithoutKey(m: Plugins, k: string): Plugins
  {
    m - {k}
  }

  function FindVersion(m: Plugins, name: string, version: string): Option<Plugin>
  {
    if Key(name, version) in m then Some(m[Key(name, version)]) else None
  }

  predicate HasName(m: Plugins, name: string)
  {
    exists k :: k in m && m[k].name == name
  }

  /** Every entry is under its own key; kept by every operation below. */
  predicate WellKeyed(m: Plugins)
  {
    forall k :: k in m ==> k == Key(m[k].name, m[k].version)
  }

  /** Adding an entry replaces what that name and version had and leaves every other lookup alone. */
  lemma AddedLookup(m: Plugins, p: Plugin, name: string, version: string)
    requires '@' !in p.name && '@' !in name
    ensures FindVersion(Added(m, p), name, version) ==
      if name == p.name && version == p.version then Some(p) else FindVersion(m, name, version)
  {
    if Key(name, version) == Key(p.name, p.version) {
      KeyInjective(name, version, p.name, p.version);
    }
  }

  /** Removing all versions of a name removes exactly these, whatever the other entries are called. */
  lemma WithoutNameLookup(m: Plugins, name: string, other: string, version: string)
    requires WellKeyed(m) && '@' !in name && '@' !in other
    requires forall k :: k in m ==> '@' !in m[k].name
    ensures FindVersion(WithoutName(m, name), other, version) ==
      if other == name then None else FindVersion(m, other, version)
    ensures !HasName(WithoutName(m, name), name)
  {
    var k := Key(other, version);
    if k in m {
      KeyInjective(m[k].name, m[k].version, other, version);
    }
  }

  /** Removing a version removes that lookup and no other. */
  lemma WithoutKeyLookup(m: Plugins, name: string, version: string, other: string, otherVersion: string)
    requires '@' !in name && '@' !in other
    ensures FindVersion(WithoutKey(m, Key(name, version)), other, otherVersion) ==
      if other == name && otherVersion == version then None else FindVersion(m, other, otherVersion)
    ensures WellKeyed(m) ==> WellKeyed(WithoutKey(m, Key(name, version)))
    ensures forall p: Plugin :: p.name == name && p.version == version && Key(name, version) !in m ==>
      WithoutKey(Added(m, p), Key(name, version)) == m
  {
    if Key(other, otherVersion) == Key(name, version) {
      KeyInjective(other, otherVersion, name, version);
    }
  }

  // ---------------------------------------------------------------------
  // Comparing versions

  function Semverize(v: string): string
  {
    if v != "" && v[0] == 'v' then v else "v" + v
  }

  function ParseVersion(v: string): Option<Semver.Semver>
  {
    Semver.Parse(Semverize(v))
  }

  /** A version is read the same with and without its leading v. */
  lemma WrittenVersion(s: Semver.Semver, build: seq<string>)
    requires Semver.Valid(s) && Semver.ValidBuild(build)
    ensures ParseVersion(Semver.Text(s, build)) == Some(s) && ParseVersion(Semver.Text(s, build)[1..]) == Some(s)
  {
    var text := Semver.Text(s, build);
    Semver.ParseText(s, build);
    assert text[1..][0] == s.major[0];
    assert "v" + text[1..] == text;
  }

  /** By precedence when both are semantic versions, as text otherwise. */
  function CompareVersions(a: string, b: string): int
  {
    if ParseVersion(a).Some? && ParseVersion(b).Some? then Semver.Compare(ParseVersion(a).value, ParseVersion(b).value)
    else CompareStrings(a, b)
  }

  // ---------------------------------------------------------------------
  // Latest

  /** The candidates of a name met in the given order, as (key, entry) visits. */
  function Better(m: Plugins, name: string, best: Option<Plugin>, k: string): Option<Plugin>
    requires k in m
  {
    var p := m[k];
    if p.name != name then best
    else if best.None? || CompareVersions(p.version, best.value.version) > 0 then Some(p)
    else best
  }

  predicate KeysOf(m: Plugins, order: seq<string>)
  {
    forall i :: 0 <= i < |order| ==> order[i] in m
  }

  /** The result of visiting the entries in this order. */
  function LatestIn(m: Plugins, name: string, order: seq<string>): Option<Plugin>
    requires KeysOf(m, order)
  {
    if order == [] then None
    else Better(m, name, LatestIn(m, name, order[..|order| - 1]), order[|order| - 1])
  }

  /** A map iteration: every key once. */
  ghost predicate Iteration(m: Plugins, order: seq<string>)
  {
    && KeysOf(m, order)
    && (forall k :: k in m ==> k in order)
    && (forall i, j :: 0 <= i < j < |order| ==> order[i] != order[j])
  }

  /** What is chosen is an entry of the name, and one is chosen whenever there is one. */
  lemma {:induction false} LatestIsEntry(m: Plugins, name: string, order: seq<string>)
    requires KeysOf(m, order)
    ensures LatestIn(m, name, order).None? <==> forall k :: k in order ==> m[k].name != name
    ensures LatestIn(m, name, order).Some? ==>
      exists k :: k in order && m[k] == LatestIn(m, name, order).value && m[k].name == name
  {
    if order != [] {
      var init, last := order[..|order| - 1], order[|order| - 1];
      assert order == init + [last];
      LatestIsEntry(m, name, init);
    }
  }

  lemma LatestFoundIff(m: Plugins, name: string, order: seq<string>)
    requires Iteration(m, order)
    ensures LatestIn(m, name, order).Some? <==> HasName(m, name)
    ensures LatestIn(m, name, order).Some? ==>
      LatestIn(m, name, order).value.name == name && LatestIn(m, name, order).value in m.Values
  {
    LatestIsEntry(m, name, order);
  }

  /** All installed versions of the name are semantic versions. */
  predicate AllSemver(m: Plugins, name: string)
  {
    forall k :: k in m && m[k].name == name ==> ParseVersion(m[k].version).Some?
  }

  /** None of them is. */
  predicate NoneSemver(m: Plugins, name: string)
  {
    forall k :: k in m && m[k].name == name ==> ParseVersion(m[k].version).None?
  }

  lemma CompareVersionsLaws(m: Plugins, name: string, a: Plugin, b: Plugin, c: Plugin)
    requires AllSemver(m, name) || NoneSemver(m, name)
    requires a in m.Values && b in m.Values && c in m.Values && a.name == b.name == c.name == name
    ensures CompareVersions(a.version, b.version) <= 0 && CompareVersions(b.version, c.version) <= 0 ==>
      CompareVersions(a.version, c.version) <= 0
    ensures CompareVersions(a.version, b.version) < 0 <==> CompareVersions(b.version, a.version) > 0
    ensures CompareVersions(a.version, a.version) == 0
  {
    if AllSemver(m, name) {
      Semver.CompareLaws(ParseVersion(a.version).value, ParseVersion(b.version).value, ParseVersion(c.version).value);
    } else {
      Semver.StringLaws(a.version, b.version);
      Semver.StringLaws(b.version, c.version);
      Semver.StringsTransitive(a.version, b.version, c.version);
    }
  }

  /** With versions of one kind the choice is a maximum of what was visited. */
  lemma {:induction false} LatestIsMaximum(m: Plugins, name: string, order: seq<string>)
    requires KeysOf(m, order) && (AllSemver(m, name) || NoneSemver(m, name))
    ensures forall k :: k in order && m[k].name == name ==>
      LatestIn(m, name, order).Some? && CompareVersions(m[k].version, LatestIn(m, name, order).value.version) <= 0
  {
    if order != [] {
      var init, last := order[..|order| - 1], order[|order| - 1];
      assert order == init + [last];
      LatestIsMaximum(m, name, init);
      LatestIsEntry(m, name, init);
      LatestIsEntry(m, name, order);
      var before, after := LatestIn(m, name, init), LatestIn(m, name, order);
      forall k | k in order && m[k].name == name
        ensures after.Some? && CompareVersions(m[k].version, after.value.version) <= 0
      {
        if before.Some? {
          assert before.value in m.Values && after.value in m.Values && m[k] in m.Values && m[last] in m.Values;
          CompareVersionsLaws(m, name, m[k], before.value, after.value);
          CompareVersionsLaws(m, name, after.value, before.value, m[k]);
          CompareVersionsLaws(m, name, m[k], m[k], m[k]);
        } else {
          CompareVersionsLaws(m, name, m[k], m[k], m[k]);
        }
      }
    }
  }

  /**
   `Latest` over semantic versions: whatever the map's order it returns an
   entry of highest precedence, so any two orders return versions of equal precedence.
   */
  lemma LatestIsHighestSemver(m: Plugins, name: string, order1: seq<string>, order2: seq<string>)
    requires Iteration(m, order1) && Iteration(m, order2) && HasName(m, name) && AllSemver(m, name)
    ensures LatestIn(m, name, order1).Some? && LatestIn(m, name, order2).Some?
    ensures var v1, v2 := LatestIn(m, name, order1).value.version, LatestIn(m, name, order2).value.version;
      && ParseVersion(v1).Some? && ParseVersion(v2).Some?
      && Semver.Compare(ParseVersion(v1).value, ParseVersion(v2).value) == 0
      && forall k :: k in m && m[k].name == name ==>
           Semver.Compare(ParseVersion(m[k].version).value, ParseVersion(v1).value) <= 0
  {
    LatestFoundIff(m, name, order1);
    LatestFoundIff(m, name, order2);
    LatestIsMaximum(m, name, order1);
    LatestIsMaximum(m, name, order2);
    var p1, p2 := LatestIn(m, name, order1).value, LatestIn(m, name, order2).value;
    CompareVersionsLaws(m, name, p1, p2, p1);
  }

  /** The version as it is compared. */
  function Read(version: string): (r: Semver.Semver)
    requires ParseVersion(version).Some?
    ensures Semver.Valid(r)
  {
    Semver.ParsedIsValid(Semverize(version));
    ParseVersion(version).value
  }

  /**
   In terms of the numbers themselves: no installed version of the name is above
   the chosen one by section 11, so none has a greater major, minor and patch.
   */
  lemma LatestHasHighestNumbers(m: Plugins, name: string, order: seq<string>, k: string)
    requires Iteration(m, order) && AllSemver(m, name) && k in m && m[k].name == name
    ensures LatestIn(m, name, order).Some? && ParseVersion(LatestIn(m, name, order).value.version).Some?
    ensures !Semver.Lower(Read(LatestIn(m, name, order).value.version), Read(m[k].version))
    ensures !Semver.NumbersLower(Read(LatestIn(m, name, order).value.version), Read(m[k].version))
  {
    LatestIsHighestSemver(m, name, order, order);
    Semver.PrecedenceIsSection11(Read(LatestIn(m, name, order).value.version), Read(m[k].version));
    Semver.PrecedenceIsSection11(Read(m[k].version), Read(LatestIn(m, name, order).value.version));
  }

  /** Without any semantic version the chosen one is the last as text. */
  lemma LatestIsLastText(m: Plugins, name: string, order: seq<string>, k: string)
    requires Iteration(m, order) && NoneSemver(m, name) && k in m && m[k].name == name
    ensures LatestIn(m, name, order).Some? && StringLe(m[k].version, LatestIn(m, name, order).value.version)
  {
    LatestIsMaximum(m, name, order);
    LatestFoundIff(m, name, order);
    Semver.StringLaws(m[k].version, m[k].version);
  }

  // ---------------------------------------------------------------------
  // When the choice does not depend on the map's order

  /** An entry of the name that beats every other one. */
  predicate Beats(m: Plugins, name: string, champion: Plugin)
  {
    && (exists k :: k in m && m[k] == champion && champion.name == name)
    && (forall k :: k in m && m[k].name == name && m[k] != champion ==>
      CompareVersions(champion.version, m[k].version) > 0)
  }

  ghost predicate OrderIndependent(m: Plugins, name: string, result: Option<Plugin>)
  {
    forall order :: Iteration(m, order) ==> LatestIn(m, name, order) == result
  }

  lemma CompareAntisymmetric(a: string, b: string)
    ensures CompareVersions(a, b) > 0 ==> CompareVersions(b, a) <= 0
    ensures CompareVersions(a, a) == 0
  {
    if ParseVersion(a).Some? && ParseVersion(b).Some? {
      Semver.CompareLaws(ParseVersion(a).value, ParseVersion(b).value, ParseVersion(a).value);
    }
    if ParseVersion(a).Some? {
      Semver.CompareLaws(ParseVersion(a).value, ParseVersion(a).value, ParseVersion(a).value);
    }
    Semver.StringLaws(a, b);
  }

  lemma {:induction false} ChampionStays(m: Plugins, name: string, champion: Plugin, order: seq<string>)
    requires KeysOf(m, order) && Beats(m, name, champion)
    ensures (exists k :: k in order && m[k] == champion) ==> LatestIn(m, name, order) == Some(champion)
  {
    if order != [] {
      var init, last := order[..|order| - 1], order[|order| - 1];
      assert order == init + [last];
      ChampionStays(m, name, champion, init);
      LatestIsEntry(m, name, init);
      CompareAntisymmetric(champion.version, m[last].version);
    }
  }

  /** With the champion's keys all behind and another entry chosen, the champion is chosen no more. */
  lemma {:induction false} NotChosenOnceBeaten(m: Plugins, name: string, champion: Plugin, order: seq<string>, n: nat)
    requires KeysOf(m, order) && n <= |order|
    requires LatestIn(m, name, order[..n]) != Some(champion)
    requires forall i :: n <= i < |order| ==> m[order[i]] != champion
    ensures LatestIn(m, name, order) != Some(champion)
    decreases |order|
  {
    if n == |order| {
      assert order[..n] == order;
    } else {
      var init := order[..|order| - 1];
      assert init[..n] == order[..n];
      NotChosenOnceBeaten(m, name, champion, init, n);
    }
  }

  lemma {:induction false} StaysWhileUnbeaten(m: Plugins, name: string, champion: Plugin, x: Plugin, order: seq<string>)
    requires KeysOf(m, order) && order != [] && m[order[0]] == x && x.name == name && x != champion
    requires CompareVersions(champion.version, x.version) <= 0
    requires forall i :: 1 <= i < |order| ==> m[order[i]] == champion
    ensures LatestIn(m, name, order) == Some(x)
  {
    if |order| == 1 {
      assert order[..0] == [];
    } else {
      StaysWhileUnbeaten(m, name, champion, x, order[..|order| - 1]);
    }
  }

  lemma Arrangement(s: set<string>) returns (order: seq<string>)
    ensures forall k :: k in s <==> k in order
    ensures forall i, j :: 0 <= i < j < |order| ==> order[i] != order[j]
    decreases |s|
  {
    if s == {} {
      order := [];
    } else {
      var k :| k in s;
      var rest := Arrangement(s - {k});
      order := [k] + rest;
      assert forall x :: x in s <==> x == k || x in s - {k};
    }
  }

  /** Visiting `x`, then the champion's keys, then the rest, the champion is not chosen. */
  lemma OrderAgainst(m: Plugins, name: string, champion: Plugin, kx: string) returns (order: seq<string>)
    requires kx in m && m[kx].name == name && m[kx] != champion
    requires CompareVersions(champion.version, m[kx].version) <= 0
    ensures Iteration(m, order) && LatestIn(m, name, order) != Some(champion)
  {
    var mine := set k | k in m && m[k] == champion;
    var a := Arrangement(mine);
    var b := Arrangement(m.Keys - mine - {kx});
    order := [kx] + a + b;
    JoinedIsIteration(m, kx, mine, a, b);
    JoinedAvoids(m, name, champion, kx, a, b);
  }

  lemma JoinedAvoids(m: Plugins, name: string, champion: Plugin, kx: string, a: seq<string>, b: seq<string>)
    requires kx in m && m[kx].name == name && m[kx] != champion
    requires CompareVersions(champion.version, m[kx].version) <= 0
    requires forall k :: k in a ==> k in m && m[k] == champion
    requires forall k :: k in b ==> k in m && m[k] != champion
    ensures KeysOf(m, [kx] + a + b) && LatestIn(m, name, [kx] + a + b) != Some(champion)
  {
    var order, first, n := [kx] + a + b, [kx] + a, 1 + |a|;
    JoinedAt(kx, a, b);
    StaysWhileUnbeaten(m, name, champion, m[kx], first);
    NotChosenOnceBeaten(m, name, champion, order, n);
  }

  lemma JoinedAt(x: string, a: seq<string>, b: seq<string>)
    ensures var s := [x] + a + b; var n := 1 + |a|;
      && s[..n] == [x] + a && s[0] == x
      && (forall i :: 1 <= i < n ==> ([x] + a)[i] in a && s[i] in a)
      && (forall i :: n <= i < |s| ==> s[i] in b)
  {
    var s, n := [x] + a + b, 1 + |a|;
    forall i | 1 <= i < n ensures ([x] + a)[i] in a && s[i] in a {
      assert ([x] + a)[i] == a[i - 1] == s[i];
    }
    forall i | n <= i < |s| ensures s[i] in b {
      assert s[i] == b[i - n];
    }
  }

  /** One key, then some others, then all the rest. */
  lemma JoinedIsIteration(m: Plugins, kx: string, mine: set<string>, a: seq<string>, b: seq<string>)
    requires kx in m && kx !in mine && mine <= m.Keys
    requires (forall k :: k in mine <==> k in a) && (forall k :: k in m.Keys - mine - {kx} <==> k in b)
    requires (forall i, j :: 0 <= i < j < |a| ==> a[i] != a[j]) && (forall i, j :: 0 <= i < j < |b| ==> b[i] != b[j])
    ensures Iteration(m, [kx] + a + b)
  {
    var order := [kx] + a + b;
    assert forall k :: k in m ==> k == kx || k in mine || k in m.Keys - mine - {kx};
    forall i | 0 <= i < |order| ensures order[i] in m {
      assert order[i] == kx || order[i] in a || order[i] in b;
    }
    forall i, j | 0 <= i < j < |order| ensures order[i] != order[j] {
      Disjoint3(kx, a, b, mine, m.Keys - mine - {kx}, i, j);
    }
  }

  lemma Disjoint3(x: string, a: seq<string>, b: seq<string>, sa: set<string>, sb: set<string>, i: int, j: int)
    requires forall k :: k in sa <==> k in a
    requires forall k :: k in sb <==> k in b
    requires x !in sa && x !in sb && sa !! sb
    requires forall i, j :: 0 <= i < j < |a| ==> a[i] != a[j]
    requires forall i, j :: 0 <= i < j < |b| ==> b[i] != b[j]
    requires 0 <= i < j < 1 + |a| + |b|
    ensures ([x] + a + b)[i] != ([x] + a + b)[j]
  {
    var s := [x] + a + b;
    assert forall t :: 1 <= t < 1 + |a| ==> s[t] == a[t - 1] && s[t] in a;
    assert forall t :: 1 + |a| <= t < |s| ==> s[t] == b[t - 1 - |a|] && s[t] in b;
  }

  /**
   Every iteration order gives one and the same entry exactly when some entry
   beats all the others: ties, and mixed version kinds that go round in a circle, break it.
   */
  lemma OrderIndependentIff(m: Plugins, name: string, champion: Plugin)
    requires HasName(m, name)
    ensures OrderIndependent(m, name, Some(champion)) <==> Beats(m, name, champion)
  {
    if Beats(m, name, champion) {
      forall order | Iteration(m, order) ensures LatestIn(m, name, order) == Some(champion) {
        ChampionStays(m, name, champion, order);
      }
    }
    if OrderIndependent(m, name, Some(champion)) {
      var some := Arrangement(m.Keys);
      assert Iteration(m, some);
      LatestIsEntry(m, name, some);
      forall k | k in m && m[k].name == name && m[k] != champion
        ensures CompareVersions(champion.version, m[k].version) > 0
      {
        if CompareVersions(champion.version, m[k].version) <= 0 {
          var order := OrderAgainst(m, name, champion, k);
        }
      }
    }
  }

  /** Mixed kinds: "1.10.0" is above "1.9.0", "1.9.0" above "1.5x", and "1.5x" above "1.10.0". */
  lemma MixedKindsGoInACircle()
    ensures CompareVersions("1.10.0", "1.9.0") > 0
    ensures CompareVersions("1.9.0", "1.5x") > 0
    ensures CompareVersions("1.5x", "1.10.0") > 0
  {
    TenthAfterNinth();
    NinthAfterOdd();
    OddAfterTenth();
  }

  lemma TenthAfterNinth()
    ensures CompareVersions("1.10.0", "1.9.0") > 0
  {
    ParseTenth();
    ParseNinth();
  }

  lemma NinthAfterOdd()
    ensures CompareVersions("1.9.0", "1.5x") > 0
  {
    ParseOdd();
    assert "1.5x"[1..] == ".5x" && "1.9.0"[1..] == ".9.0" && ".5x"[1..] == "5x" && ".9.0"[1..] == "9.0";
    assert StringLe("5x", "9.0");
    assert StringLe(".5x", ".9.0");
    Semver.StringLaws("1.9.0", "1.5x");
  }

  lemma OddAfterTenth()
    ensures CompareVersions("1.5x", "1.10.0") > 0
  {
    ParseOdd();
    assert "1.10.0"[1..] == ".10.0" && "1.5x"[1..] == ".5x" && ".10.0"[1..] == "10.0" && ".5x"[1..] == "5x";
    assert StringLe("10.0", "5x");
    assert StringLe(".10.0", ".5x");
    Semver.StringLaws("1.5x", "1.10.0");
  }

  lemma ParseTenth()
    ensures ParseVersion("1.10.0") == Some(Semver.Semver("1", "10", "0", []))
  {
    WrittenRelease("1", "10", "0");
    assert "1.10.0" == "1" + ['.'] + "10" + ['.'] + "0";
  }

  lemma ParseNinth()
    ensures ParseVersion("1.9.0") == Some(Semver.Semver("1", "9", "0", []))
  {
    WrittenRelease("1", "9", "0");
    assert "1.9.0" == "1" + ['.'] + "9" + ['.'] + "0";
  }

  lemma WrittenRelease(major: string, minor: string, patch: string)
    requires Semver.IsVersionNumber(major) && Semver.IsVersionNumber(minor) && Semver.IsVersionNumber(patch)
    ensures ParseVersion(major + ['.'] + minor + ['.'] + patch) == Some(Semver.Semver(major, minor, patch, []))
  {
    var s := Semver.Semver(major, minor, patch, []);
    WrittenVersion(s, []);
    Semver.ReleaseText(major, minor, patch);
  }

  lemma ParseOdd()
    ensures ParseVersion("1.5x") == None
  {
    assert Semverize("1.5x") == "v1.5x";
    assert "v1.5x"[1..] == "1.5x";
    assert Semver.ParseInt("1.5x") == Some(("1", ".5x")) by {
      assert "1.5x"[1..] == ".5x" && "1.5x"[..1] == "1";
      assert Semver.DigitPrefix(".5x") == 0;
    }
    assert ".5x"[1..] == "5x";
    assert Semver.ParseInt("5x") == Some(("5", "x")) by {
      assert "5x"[1..] == "x" && "5x"[..1] == "5";
      assert Semver.DigitPrefix("x") == 0;
    }
  }

  // ---------------------------------------------------------------------
  // The mutable manifest

  class Manifest {
    var plugins: Plugins

    constructor (m: Plugins)
      ensures plugins == m
    {
      plugins := m;
    }

    method Add(p: Plugin)
      modifies this
      ensures plugins == Added(old(plugins), p)
    {
      plugins := plugins[Key(p.name, p.version) := p];
    }

    method RemoveVersion(name: string, version: string)
      modifies this
      ensures plugins == WithoutKey(old(plugins), Key(name, version))
      ensures '@' !in name ==> forall other, v :: '@' !in other ==>
        FindVersion(plugins, other, v) ==
          if other == name && v == version then None else FindVersion(old(plugins), other, v)
    {
      plugins := plugins - {Key(name, version)};
      if '@' !in name {
        forall other: string, v: string | '@' !in other
          ensures FindVersion(plugins, other, v) ==
            if other == name && v == version then None else FindVersion(old(plugins), other, v)
        {
          WithoutKeyLookup(old(plugins), name, version, other, v);
        }
      }
    }

    /** Deleting while ranging over the map, in whatever order. */
    method RemoveAllVersions(name: string)
      modifies this
      ensures plugins == WithoutName(old(plugins), name)
    {
      var pending := plugins.Keys;
      while pending != {}
        invariant pending <= plugins.Keys <= old(plugins).Keys
        invariant forall k :: k in plugins ==> plugins[k] == old(plugins)[k]
        invariant forall k :: k in old(plugins) && k !in pending ==> (k in plugins <==> old(plugins)[k].name != name)
        decreases pending
      {
        var k :| k in pending;
        pending := pending - {k};
        if plugins[k].name == name {
          plugins := plugins - {k};
        }
      }
    }

    /** Ranging over the map in whatever order. */
    method Latest(name: string) returns (best: Option<Plugin>)
      ensures exists order :: Iteration(plugins, order) && best == LatestIn(plugins, name, order)
    {
      best := None;
      ghost var order := [];
      var pending := plugins.Keys;
      while pending != {}
        invariant pending <= plugins.Keys
        invariant KeysOf(plugins, order)
        invariant forall k :: k in plugins ==> (k in pending <==> k !in order)
        invariant forall i, j :: 0 <= i < j < |order| ==> order[i] != order[j]
        invariant best == LatestIn(plugins, name, order)
        decreases pending
      {
        var k :| k in pending;
        pending := pending - {k};
        var p := plugins[k];
        ghost var before := order;
        order := order + [k];
        assert order[..|order| - 1] == before;
        if p.name != name {
          continue;
        }
        if best == None || CompareVersions(p.version, best.value.version) > 0 {
          best := Some(p);
        }
      }
    }
  }

  // ---------------------------------------------------------------------
  // The file

  /** What `plugins.json` can hold; saving always writes the current format. */
  datatype File = Absent | Current(plugins: Plugins) | Legacy(entries: seq<Plugin>) | Unreadable

  function Migrated(entries: seq<Plugin>): Plugins
  {
    if entries == [] then map[] else Added(Migrated(entries[..|entries| - 1]), entries[|entries| - 1])
  }

  function Load(f: File): Result<Plugins, ()>
  {
    match f
    case Absent => Ok(map[])
    case Current(m) => Ok(m)
    case Legacy(entries) => Ok(Migrated(entries))
    case Unreadable => Err(())
  }

  /** A saved manifest is read back, a missing file is an empty one, and what cannot be parsed is refused. */
  lemma SavedIsReadBack(m: Plugins)
    ensures Load(Current(m)) == Ok(m) && Load(Absent) == Ok(map[]) && Load(Unreadable).Err?
  {
  }

  ghost predicate LastOf(entries: seq<Plugin>, name: string, version: string, i: int)
  {
    && 0 <= i < |entries| && entries[i].name == name && entries[i].version == version
    && forall j :: i < j < |entries| ==> !(entries[j].name == name && entries[j].version == version)
  }

  lemma LastOfInit(entries: seq<Plugin>, name: string, version: string, i: int)
    requires entries != [] && !(entries[|entries| - 1].name == name && entries[|entries| - 1].version == version)
    ensures LastOf(entries, name, version, i) <==> LastOf(entries[..|entries| - 1], name, version, i)
  {
    var init := entries[..|entries| - 1];
    if LastOf(entries, name, version, i) {
      assert forall j :: i < j < |init| ==> init[j] == entries[j];
    }
    if LastOf(init, name, version, i) {
      assert forall j :: i < j < |init| ==> entries[j] == init[j];
    }
  }

  /**
   Migration keeps, for each name and version, the last entry the old array
   had for it, and invents none.
   */
  lemma {:induction false} MigrationKeepsLast(entries: seq<Plugin>, name: string, version: string)
    requires '@' !in name && forall i :: 0 <= i < |entries| ==> '@' !in entries[i].name
    ensures FindVersion(Migrated(entries), name, version).Some? <==> exists i :: LastOf(entries, name, version, i)
    ensures forall i :: LastOf(entries, name, version, i) ==>
      FindVersion(Migrated(entries), name, version) == Some(entries[i])
    ensures Load(Legacy(entries)) == Ok(Migrated(entries))
  {
    if entries != [] {
      var n := |entries| - 1;
      var init, last := entries[..n], entries[n];
      MigrationKeepsLast(init, name, version);
      AddedLookup(Migrated(init), last, name, version);
      if last.name == name && last.version == version {
        assert LastOf(entries, name, version, n);
      } else {
        forall i ensures LastOf(entries, name, version, i) <==> LastOf(init, name, version, i) {
          LastOfInit(entries, name, version, i);
        }
      }
    }
  }
}
