/**
 Semantic versions as `golang.org/x/mod/semver` reads and orders them, and the
 proof that this order is the precedence of section 11 of Semantic Versioning
 2.0.0: a total preorder in which numbers count as numbers.
 */
module Semver {
  import opened Wrappers
  import opened Ordering

  /** Build metadata is checked when parsing and dropped: it has no part in precedence. */
  datatype Semver = Semver(major: string, minor: string, patch: string, prerelease: seq<string>)

  predicate IsDigit(c: char)
  {
    '0' <= c <= '9'
  }

  predicate IsNumber(s: string)
  {
    forall i :: 0 <= i < |s| ==> IsDigit(s[i])
  }

  predicate IsIdentifier(s: string)
  {
    s != "" && forall i :: 0 <= i < |s| ==> IsDigit(s[i]) || 'a' <= s[i] <= 'z' || 'A' <= s[i] <= 'Z' || s[i] == '-'
  }

  /** A number with a superfluous leading zero. */
  predicate IsBadNumber(s: string)
  {
    |s| > 1 && s[0] == '0' && IsNumber(s)
  }

  /** The text before the first `stop`, and the rest from there on. */
  function Until(s: string, stop: char): (string, string)
  {
    if s == "" || s[0] == stop then ("", s)
    else
      var (before, rest) := Until(s[1..], stop);
      ([s[0]] + before, rest)
  }

  function Fields(s: string): seq<string>
    decreases |s|
  {
    var (first, rest) := Until(s, '.');
    if rest == "" || |rest| > |s| then [first] else [first] + Fields(rest[1..])
  }

  function DigitPrefix(s: string): nat
  {
    if s == "" || !IsDigit(s[0]) then 0 else 1 + DigitPrefix(s[1..])
  }

  function ParseInt(s: string): Option<(string, string)>
  {
    var n := DigitPrefix(s);
    if n == 0 || n > |s| || (s[0] == '0' && n != 1) then None else Some((s[..n], s[n..]))
  }

  predicate ValidPrerelease(fields: seq<string>)
  {
    forall i :: 0 <= i < |fields| ==> IsIdentifier(fields[i]) && !IsBadNumber(fields[i])
  }

  predicate ValidBuild(fields: seq<string>)
  {
    forall i :: 0 <= i < |fields| ==> IsIdentifier(fields[i])
  }

  /** What follows the patch number: an optional prerelease, then optional build metadata. */
  function ParseTail(major: string, minor: string, patch: string, s: string): Option<Semver>
  {
    var hasPre := s != "" && s[0] == '-';
    var (pre, rest) := if hasPre then Until(s[1..], '+') else ("", s);
    var fields := if hasPre then Fields(pre) else [];
    if !ValidPrerelease(fields) then None
    else if rest == "" then Some(Semver(major, minor, patch, fields))
    else if rest[0] == '+' && ValidBuild(Fields(rest[1..])) then Some(Semver(major, minor, patch, fields))
    else None
  }

  function ParsePatch(major: string, minor: string, s: string): Option<Semver>
  {
    if s == "" then Some(Semver(major, minor, "0", []))
    else if s[0] != '.' then None
    else match ParseInt(s[1..])
      case None => None
      case Some((patch, rest)) => ParseTail(major, minor, patch, rest)
  }

  function ParseMinor(major: string, s: string): Option<Semver>
  {
    if s == "" then Some(Semver(major, "0", "0", []))
    else if s[0] != '.' then None
    else match ParseInt(s[1..])
      case None => None
      case Some((minor, rest)) => ParsePatch(major, minor, rest)
  }

  /** `v1` and `v1.2` are shorthands for `v1.0.0` and `v1.2.0`. */
  function Parse(v: string): Option<Semver>
  {
    if v == "" || v[0] != 'v' then None
    else match ParseInt(v[1..])
      case None => None
      case Some((major, rest)) => ParseMinor(major, rest)
  }

  lemma {:induction false} DigitPrefixOf(a: string, rest: string)
    requires IsNumber(a) && (rest == "" || !IsDigit(rest[0]))
    ensures DigitPrefix(a + rest) == |a|
  {
    if a == "" {
      assert a + rest == rest;
    } else {
      DigitPrefixOf(a[1..], rest);
      assert (a + rest)[1..] == a[1..] + rest;
    }
  }

  /** A number without superfluous zeros is read in full. */
  lemma ParseIntOf(a: string, rest: string)
    requires IsNumber(a) && a != "" && !IsBadNumber(a) && (rest == "" || !IsDigit(rest[0]))
    ensures ParseInt(a + rest) == Some((a, rest))
  {
    DigitPrefixOf(a, rest);
    assert (a + rest)[..|a|] == a && (a + rest)[|a|..] == rest;
  }

  predicate IsVersionNumber(a: string)
  {
    IsNumber(a) && a != "" && !IsBadNumber(a)
  }

  /** What parsing can return. */
  predicate Valid(s: Semver)
  {
    IsVersionNumber(s.major) && IsVersionNumber(s.minor) && IsVersionNumber(s.patch) && ValidPrerelease(s.prerelease)
  }

  function Join(fields: seq<string>): string
  {
    if fields == [] then "" else if |fields| == 1 then fields[0] else fields[0] + ['.'] + Join(fields[1..])
  }

  /** Build metadata, when there is any. */
  function BuildText(build: seq<string>): string
  {
    if build == [] then "" else ['+'] + Join(build)
  }

  function TailText(prerelease: seq<string>, build: seq<string>): string
  {
    (if prerelease == [] then "" else ['-'] + Join(prerelease)) + BuildText(build)
  }

  /** A version written out. */
  function Text(s: Semver, build: seq<string>): string
  {
    ['v'] + (s.major + (['.'] + (s.minor + (['.'] + (s.patch + TailText(s.prerelease, build))))))
  }

  lemma ReleaseText(major: string, minor: string, patch: string)
    ensures Text(Semver(major, minor, patch, []), [])[1..] == major + ['.'] + minor + ['.'] + patch
  {
    var tail := TailText([], []);
    assert tail == "" && patch + tail == patch;
    var inner := minor + (['.'] + patch);
    assert minor + ['.'] + patch == inner;
    assert major + ['.'] + minor + ['.'] + patch == major + (['.'] + inner);
  }

  lemma {:induction false} UntilStop(a: string, b: string, stop: char)
    requires stop !in a && (b == "" || b[0] == stop)
    ensures Until(a + b, stop) == (a, b)
  {
    if a == "" {
      assert a + b == b;
    } else {
      UntilStop(a[1..], b, stop);
      assert (a + b)[1..] == a[1..] + b;
      assert a == [a[0]] + a[1..];
    }
  }

  /** Fields joined by dots are taken apart again. */
  lemma {:induction false} FieldsOfJoin(fields: seq<string>)
    requires fields != [] && forall i :: 0 <= i < |fields| ==> '.' !in fields[i]
    ensures Fields(Join(fields)) == fields
  {
    var text := Join(fields);
    if |fields| == 1 {
      UntilStop(text, "", '.');
      assert text + "" == text;
      assert fields == [fields[0]];
    } else {
      var rest := ['.'] + Join(fields[1..]);
      FieldsOfJoin(fields[1..]);
      assert text == fields[0] + rest;
      UntilStop(fields[0], rest, '.');
      assert rest[1..] == Join(fields[1..]);
      assert fields == [fields[0]] + fields[1..];
    }
  }

  lemma {:induction false} JoinHasOnly(fields: seq<string>, c: char)
    requires c != '.' && forall i :: 0 <= i < |fields| ==> c !in fields[i]
    ensures c !in Join(fields)
  {
    if |fields| > 1 {
      JoinHasOnly(fields[1..], c);
    }
  }

  /** Prerelease and build metadata are read back. */
  lemma ParseTailOf(major: string, minor: string, patch: string, prerelease: seq<string>, build: seq<string>)
    requires ValidPrerelease(prerelease) && ValidBuild(build)
    ensures ParseTail(major, minor, patch, TailText(prerelease, build)) == Some(Semver(major, minor, patch, prerelease))
  {
    var text, tail := TailText(prerelease, build), BuildText(build);
    BuildTextIsRead(build);
    if prerelease == [] {
      assert text == tail;
    } else {
      PrereleaseIsRead(prerelease, tail);
    }
  }

  lemma BuildTextIsRead(build: seq<string>)
    requires ValidBuild(build)
    ensures var tail := BuildText(build); tail == "" || (tail[0] == '+' && ValidBuild(Fields(tail[1..])))
  {
    if build != [] {
      FieldsOfJoin(build);
      assert BuildText(build)[1..] == Join(build);
    }
  }

  lemma PrereleaseIsRead(prerelease: seq<string>, tail: string)
    requires prerelease != [] && ValidPrerelease(prerelease) && (tail == "" || tail[0] == '+')
    ensures var text := ['-'] + Join(prerelease) + tail;
      text[0] == '-' && Until(text[1..], '+') == (Join(prerelease), tail) && Fields(Join(prerelease)) == prerelease
  {
    FieldsOfJoin(prerelease);
    JoinHasOnly(prerelease, '+');
    UntilStop(Join(prerelease), tail, '+');
    assert (['-'] + Join(prerelease) + tail)[1..] == Join(prerelease) + tail;
  }

  lemma TailStarts(prerelease: seq<string>, build: seq<string>)
    ensures var text := TailText(prerelease, build); text == "" || !IsDigit(text[0])
  {
  }

  lemma ParsePatchOf(s: Semver, build: seq<string>)
    requires Valid(s) && ValidBuild(build)
    ensures ParsePatch(s.major, s.minor, ['.'] + (s.patch + TailText(s.prerelease, build))) == Some(s)
  {
    TailStarts(s.prerelease, build);
    ParseIntOf(s.patch, TailText(s.prerelease, build));
    ParseTailOf(s.major, s.minor, s.patch, s.prerelease, build);
    assert (['.'] + (s.patch + TailText(s.prerelease, build)))[1..] == s.patch + TailText(s.prerelease, build);
  }

  lemma ParseMinorOf(major: string, minor: string, rest: string)
    requires IsVersionNumber(minor) && rest != "" && !IsDigit(rest[0])
    ensures ParseMinor(major, ['.'] + (minor + rest)) == ParsePatch(major, minor, rest)
  {
    ParseIntOf(minor, rest);
    assert (['.'] + (minor + rest))[1..] == minor + rest;
  }

  lemma ParseMajorOf(major: string, rest: string)
    requires IsVersionNumber(major) && rest != "" && !IsDigit(rest[0])
    ensures Parse(['v'] + (major + rest)) == ParseMinor(major, rest)
  {
    ParseIntOf(major, rest);
    assert (['v'] + (major + rest))[1..] == major + rest;
  }

  /** Every version written out, with any build metadata, is read back without the metadata. */
  lemma ParseText(s: Semver, build: seq<string>)
    requires Valid(s) && ValidBuild(build)
    ensures Parse(Text(s, build)) == Some(s)
  {
    var r2 := ['.'] + (s.patch + TailText(s.prerelease, build));
    ParsePatchOf(s, build);
    ParseMinorOf(s.major, s.minor, r2);
    ParseMajorOf(s.major, ['.'] + (s.minor + r2));
  }

  /** The shorthands for a version with zeros at the end. */
  lemma ShorthandsAreRead(major: string, minor: string)
    requires IsVersionNumber(major) && IsVersionNumber(minor)
    ensures Parse(['v'] + major) == Some(Semver(major, "0", "0", []))
    ensures Parse(['v'] + (major + (['.'] + minor))) == Some(Semver(major, minor, "0", []))
  {
    ParseIntOf(major, "");
    assert major + "" == major && (['v'] + major)[1..] == major;
    ParseIntOf(minor, "");
    assert minor + "" == minor && (['.'] + minor)[1..] == minor;
    ParseMajorOf(major, ['.'] + minor);
  }

  lemma {:induction false} DigitPrefixIsNumber(s: string)
    ensures DigitPrefix(s) <= |s| && IsNumber(s[..DigitPrefix(s)])
  {
    if s != "" && IsDigit(s[0]) {
      DigitPrefixIsNumber(s[1..]);
      var n := DigitPrefix(s[1..]);
      assert s[..n + 1] == [s[0]] + s[1..][..n];
    }
  }

  lemma ParseIntIsValid(s: string)
    ensures ParseInt(s).Some? ==> IsVersionNumber(ParseInt(s).value.0)
  {
    DigitPrefixIsNumber(s);
  }

  /** And nothing else is ever read: what parses is a valid version. */
  lemma ParsedIsValid(v: string)
    ensures Parse(v).Some? ==> Valid(Parse(v).value)
  {
    if Parse(v).Some? {
      ParseIntIsValid(v[1..]);
      var (major, r1) := ParseInt(v[1..]).value;
      if r1 != "" {
        ParseIntIsValid(r1[1..]);
        ParsedMinorIsValid(major, r1);
      }
    }
  }

  lemma ParsedMinorIsValid(major: string, r1: string)
    requires IsVersionNumber(major) && ParseMinor(major, r1).Some?
    ensures Valid(ParseMinor(major, r1).value)
  {
    if r1 != "" {
      ParseIntIsValid(r1[1..]);
      var (minor, r2) := ParseInt(r1[1..]).value;
      if r2 != "" {
        ParseIntIsValid(r2[1..]);
      }
    }
  }

  // ---------------------------------------------------------------------
  // Precedence

  /** Numbers are compared by length and then as text; neither has superfluous zeros. */
  function CompareInt(x: string, y: string): int
  {
    if x == y then 0
    else if |x| < |y| then -1
    else if |x| > |y| then 1
    else if StringLe(x, y) then -1 else 1
  }

  /** Numeric identifiers come before the others, by value; the others go by text. */
  function CompareIdentifier(x: string, y: string): int
  {
    if x == y then 0
    else if IsNumber(x) != IsNumber(y) then (if IsNumber(x) then -1 else 1)
    else if IsNumber(x) && |x| != |y| then (if |x| < |y| then -1 else 1)
    else if StringLe(x, y) then -1 else 1
  }

  function CompareFields(x: seq<string>, y: seq<string>): int
  {
    if x == [] then (if y == [] then 0 else -1)
    else if y == [] then 1
    else
      var c := CompareIdentifier(x[0], y[0]);
      if c != 0 then c else CompareFields(x[1..], y[1..])
  }

  /** A version without prerelease comes after the same one with. */
  function ComparePrerelease(x: seq<string>, y: seq<string>): int
  {
    if x == y then 0
    else if x == [] then 1
    else if y == [] then -1
    else CompareFields(x, y)
  }

  function Compare(a: Semver, b: Semver): int
  {
    var c1 := CompareInt(a.major, b.major);
    var c2 := CompareInt(a.minor, b.minor);
    var c3 := CompareInt(a.patch, b.patch);
    if c1 != 0 then c1 else if c2 != 0 then c2 else if c3 != 0 then c3
    else ComparePrerelease(a.prerelease, b.prerelease)
  }

  // ---------------------------------------------------------------------
  // Precedence is a total preorder

  /** The laws of a comparison for three values at a time. */
  ghost predicate Laws(xy: int, yx: int, yz: int, zy: int, xz: int, zx: int)
  {
    && (xy < 0 <==> yx > 0) && (xy > 0 <==> yx < 0)
    && (yz < 0 <==> zy > 0) && (yz > 0 <==> zy < 0)
    && (xz < 0 <==> zx > 0) && (xz > 0 <==> zx < 0)
    && (xy <= 0 && yz <= 0 ==> xz <= 0) && (yx <= 0 && xz <= 0 ==> yz <= 0) && (xz <= 0 && zy <= 0 ==> xy <= 0)
    && (zy <= 0 && yx <= 0 ==> zx <= 0) && (yz <= 0 && zx <= 0 ==> yx <= 0) && (zx <= 0 && xy <= 0 ==> zy <= 0)
  }

  lemma StringLaws(x: string, y: string)
    ensures StringLe(x, y) || StringLe(y, x)
    ensures StringLe(x, y) && StringLe(y, x) ==> x == y
    ensures StringLe(x, x)
  {
    StringLeTotal(x, y);
    StringLeTotal(x, x);
  }

  lemma StringsTransitive(x: string, y: string, z: string)
    ensures StringLe(x, y) && StringLe(y, z) ==> StringLe(x, z)
    ensures StringLe(x, z) && StringLe(z, y) ==> StringLe(x, y)
    ensures StringLe(y, x) && StringLe(x, z) ==> StringLe(y, z)
    ensures StringLe(y, z) && StringLe(z, x) ==> StringLe(y, x)
    ensures StringLe(z, x) && StringLe(x, y) ==> StringLe(z, y)
    ensures StringLe(z, y) && StringLe(y, x) ==> StringLe(z, x)
  {
    StringLeIsTotalPreorder();
  }

  lemma CompareIntLaws(x: string, y: string, z: string)
    ensures Laws(CompareInt(x, y), CompareInt(y, x), CompareInt(y, z), CompareInt(z, y), CompareInt(x, z),
      CompareInt(z, x))
  {
    StringLaws(x, y);
    StringLaws(y, z);
    StringLaws(x, z);
    StringsTransitive(x, y, z);
  }

  lemma CompareIdentifierLaws(x: string, y: string, z: string)
    ensures Laws(CompareIdentifier(x, y), CompareIdentifier(y, x), CompareIdentifier(y, z), CompareIdentifier(z, y),
                 CompareIdentifier(x, z), CompareIdentifier(z, x))
  {
    StringLaws(x, y);
    StringLaws(y, z);
    StringLaws(x, z);
    StringsTransitive(x, y, z);
  }

  lemma {:induction false} CompareFieldsLaws(x: seq<string>, y: seq<string>, z: seq<string>)
    ensures Laws(CompareFields(x, y), CompareFields(y, x), CompareFields(y, z), CompareFields(z, y),
                 CompareFields(x, z), CompareFields(z, x))
  {
    var tail := (s: seq<string>) => if s == [] then [] else s[1..];
    if x != [] && y != [] {
      CompareIdentifierLaws(x[0], y[0], if z == [] then x[0] else z[0]);
      CompareFieldsLaws(x[1..], y[1..], tail(z));
    } else if x != [] && z != [] {
      CompareIdentifierLaws(x[0], x[0], z[0]);
      CompareFieldsLaws(x[1..], [], z[1..]);
    } else if y != [] && z != [] {
      CompareIdentifierLaws(y[0], y[0], z[0]);
      CompareFieldsLaws([], y[1..], z[1..]);
    }
  }

  lemma {:induction false} CompareFieldsZero(x: seq<string>, y: seq<string>)
    ensures CompareFields(x, y) == 0 <==> x == y
  {
    if x != [] && y != [] {
      StringLaws(x[0], y[0]);
      CompareFieldsZero(x[1..], y[1..]);
      assert x == [x[0]] + x[1..] && y == [y[0]] + y[1..];
    }
  }

  lemma ComparePrereleaseLaws(x: seq<string>, y: seq<string>, z: seq<string>)
    ensures Laws(ComparePrerelease(x, y), ComparePrerelease(y, x), ComparePrerelease(y, z), ComparePrerelease(z, y),
                 ComparePrerelease(x, z), ComparePrerelease(z, x))
  {
    CompareFieldsLaws(x, y, z);
    CompareFieldsZero(x, y);
    CompareFieldsZero(y, z);
    CompareFieldsZero(x, z);
    CompareFieldsZero(y, x);
    CompareFieldsZero(z, y);
    CompareFieldsZero(z, x);
  }

  /** For any three versions: reversing the arguments reverses the sign, and the order is transitive. */
  lemma CompareLaws(x: Semver, y: Semver, z: Semver)
    ensures Laws(Compare(x, y), Compare(y, x), Compare(y, z), Compare(z, y), Compare(x, z), Compare(z, x))
  {
    CompareIntLaws(x.major, y.major, z.major);
    CompareIntLaws(x.minor, y.minor, z.minor);
    CompareIntLaws(x.patch, y.patch, z.patch);
    ComparePrereleaseLaws(x.prerelease, y.prerelease, z.prerelease);
  }

  predicate PrecedenceLe(x: Semver, y: Semver)
  {
    Compare(x, y) <= 0
  }

  lemma PrecedenceIsTotalPreorder()
    ensures TotalPreorder(PrecedenceLe)
  {
    forall x, y ensures PrecedenceLe(x, y) || PrecedenceLe(y, x) {
      CompareLaws(x, y, y);
    }
    forall x, y, z | PrecedenceLe(x, y) && PrecedenceLe(y, z) ensures PrecedenceLe(x, z) {
      CompareLaws(x, y, z);
    }
  }

  // ---------------------------------------------------------------------
  // Comparing digits as text is comparing numbers

  function Value(s: string): nat
    requires IsNumber(s)
  {
    if s == "" then 0 else 10 * Value(s[..|s| - 1]) + (s[|s| - 1] as int - '0' as int)
  }

  function Pow10(n: nat): nat
  {
    if n == 0 then 1 else 10 * Pow10(n - 1)
  }

  lemma {:induction false} ValueBounds(s: string)
    requires IsNumber(s)
    ensures Value(s) < Pow10(|s|)
    ensures s != "" && s[0] != '0' ==> Value(s) >= Pow10(|s| - 1)
  {
    if |s| == 1 {
      assert s[..0] == "";
    } else if |s| > 1 {
      ValueBounds(s[..|s| - 1]);
    }
  }

  lemma {:induction false} Pow10Monotone(m: nat, n: nat)
    requires m <= n
    ensures Pow10(m) <= Pow10(n)
  {
    if m < n {
      Pow10Monotone(m, n - 1);
    }
  }

  lemma {:induction false} StringLeSnoc(a: string, b: string, c: char, d: char)
    requires |a| == |b|
    ensures StringLe(a + [c], b + [d]) <==> (if a == b then c <= d else StringLe(a, b))
  {
    var x, y := a + [c], b + [d];
    if a == "" {
      assert x[1..] == "" && y[1..] == "";
    } else {
      StringLeSnoc(a[1..], b[1..], c, d);
      assert x[1..] == a[1..] + [c] && y[1..] == b[1..] + [d] && x[0] == a[0] && y[0] == b[0];
      if a[0] == b[0] {
        assert a == [a[0]] + a[1..] && b == [b[0]] + b[1..];
        assert a == b <==> a[1..] == b[1..];
      }
    }
  }

  lemma {:induction false} SameLengthByValue(x: string, y: string)
    requires IsNumber(x) && IsNumber(y) && |x| == |y|
    ensures StringLe(x, y) <==> Value(x) <= Value(y)
    ensures x == y <==> Value(x) == Value(y)
  {
    if x != "" {
      var a, b, c, d := x[..|x| - 1], y[..|y| - 1], x[|x| - 1], y[|y| - 1];
      SameLengthByValue(a, b);
      assert x == a + [c] && y == b + [d];
      OneDigitMore(a, b, c, d, Value(a), Value(b));
    }
  }

  /** The step: one more digit on texts that compare as these numbers do. */
  lemma OneDigitMore(a: string, b: string, c: char, d: char, m: nat, n: nat)
    requires |a| == |b| && '0' <= c <= '9' && '0' <= d <= '9'
    requires (StringLe(a, b) <==> m <= n) && (a == b <==> m == n)
    ensures var i, j := c as int - '0' as int, d as int - '0' as int;
      && (StringLe(a + [c], b + [d]) <==> 10 * m + i <= 10 * n + j)
      && (a + [c] == b + [d] <==> 10 * m + i == 10 * n + j)
  {
    StringLeSnoc(a, b, c, d);
    LastDigit(m, c as int - '0' as int, n, d as int - '0' as int);
    if a + [c] == b + [d] {
      assert (a + [c])[..|a|] == a && (b + [d])[..|b|] == b && (a + [c])[|a|] == c && (b + [d])[|b|] == d;
    }
  }

  lemma LastDigit(m: nat, c: nat, n: nat, d: nat)
    requires c < 10 && d < 10
    ensures 10 * m + c <= 10 * n + d <==> m < n || (m == n && c <= d)
    ensures 10 * m + c == 10 * n + d <==> m == n && c == d
  {
  }

  /** On numbers without superfluous zeros the comparison of lengths and texts is the comparison of values. */
  lemma CompareIntIsNumeric(x: string, y: string)
    requires IsNumber(x) && IsNumber(y) && x != "" && y != "" && !IsBadNumber(x) && !IsBadNumber(y)
    ensures CompareInt(x, y) < 0 <==> Value(x) < Value(y)
    ensures CompareInt(x, y) == 0 <==> Value(x) == Value(y)
  {
    if |x| == |y| {
      SameLengthByValue(x, y);
    } else {
      ShorterIsLess(if |x| < |y| then x else y, if |x| < |y| then y else x);
    }
  }

  lemma ShorterIsLess(x: string, y: string)
    requires IsNumber(x) && IsNumber(y) && |x| < |y| && x != "" && !IsBadNumber(x) && !IsBadNumber(y)
    ensures Value(x) < Value(y)
  {
    ValueBounds(x);
    ValueBounds(y);
    Pow10Monotone(|x|, |y| - 1);
  }

  // ---------------------------------------------------------------------
  // Section 11 of Semantic Versioning 2.0.0, on the fields of two versions

  /** Major, minor and patch compared in this order, as numbers. */
  predicate NumbersLower(a: Semver, b: Semver)
    requires Valid(a) && Valid(b)
  {
    || Value(a.major) < Value(b.major)
    || (Value(a.major) == Value(b.major) && Value(a.minor) < Value(b.minor))
    || (Value(a.major) == Value(b.major) && Value(a.minor) == Value(b.minor) && Value(a.patch) < Value(b.patch))
  }

  predicate SameNumbers(a: Semver, b: Semver)
    requires Valid(a) && Valid(b)
  {
    Value(a.major) == Value(b.major) && Value(a.minor) == Value(b.minor) && Value(a.patch) == Value(b.patch)
  }

  /** Numbers by value and below the rest, the rest as text. */
  predicate IdentifierLower(x: string, y: string)
  {
    if IsNumber(x) && IsNumber(y) then Value(x) < Value(y)
    else if IsNumber(x) || IsNumber(y) then IsNumber(x)
    else x != y && StringLe(x, y)
  }

  /** The lists agree on their first `k` identifiers and not on the next. */
  predicate DifferAt(x: seq<string>, y: seq<string>, k: nat)
  {
    k <= |x| && k <= |y| && x[..k] == y[..k] && (k < |x| && k < |y| ==> x[k] != y[k])
  }

  /** At the first difference `k` the list that ends is the lower one, or the identifiers there decide. */
  predicate LowerFrom(x: seq<string>, y: seq<string>, k: nat)
  {
    DifferAt(x, y, k) && k < |y| && (k < |x| ==> IdentifierLower(x[k], y[k]))
  }

  /** A prerelease is below its release, and otherwise the first difference decides. */
  ghost predicate PrereleaseLower(x: seq<string>, y: seq<string>)
  {
    (x != [] && y == []) || (x != [] && y != [] && exists k: nat :: LowerFrom(x, y, k))
  }

  ghost predicate Lower(a: Semver, b: Semver)
    requires Valid(a) && Valid(b)
  {
    NumbersLower(a, b) || (SameNumbers(a, b) && PrereleaseLower(a.prerelease, b.prerelease))
  }

  lemma IdentifierIsLower(x: string, y: string)
    requires IsIdentifier(x) && !IsBadNumber(x) && IsIdentifier(y) && !IsBadNumber(y)
    ensures CompareIdentifier(x, y) < 0 <==> IdentifierLower(x, y)
  {
    if IsNumber(x) && IsNumber(y) {
      CompareIntIsNumeric(x, y);
    }
  }

  lemma {:induction false} FirstDifference(x: seq<string>, y: seq<string>) returns (k: nat)
    ensures DifferAt(x, y, k)
  {
    if x == [] || y == [] || x[0] != y[0] {
      k := 0;
    } else {
      var rest := FirstDifference(x[1..], y[1..]);
      k := rest + 1;
      assert x[..k] == [x[0]] + x[1..][..rest] && y[..k] == [y[0]] + y[1..][..rest];
    }
  }

  lemma {:induction false} FieldsDecideAt(x: seq<string>, y: seq<string>, k: nat)
    requires ValidPrerelease(x) && ValidPrerelease(y) && DifferAt(x, y, k)
    ensures CompareFields(x, y) < 0 <==> k < |y| && (k < |x| ==> IdentifierLower(x[k], y[k]))
  {
    if k > 0 {
      assert x[..k][0] == y[..k][0];
      assert x[1..][..k - 1] == x[..k][1..] && y[1..][..k - 1] == y[..k][1..];
      FieldsDecideAt(x[1..], y[1..], k - 1);
    } else if x != [] && y != [] {
      IdentifierIsLower(x[0], y[0]);
      StringLaws(x[0], y[0]);
    }
  }

  lemma PrereleaseIsLower(x: seq<string>, y: seq<string>)
    requires ValidPrerelease(x) && ValidPrerelease(y)
    ensures ComparePrerelease(x, y) < 0 <==> PrereleaseLower(x, y)
  {
    if x != [] && y != [] {
      var k := FirstDifference(x, y);
      FieldsDecideAt(x, y, k);
      CompareFieldsZero(x, y);
      if CompareFields(x, y) < 0 {
        assert LowerFrom(x, y, k);
      }
      if exists j: nat :: LowerFrom(x, y, j) {
        var j: nat :| LowerFrom(x, y, j);
        FieldsDecideAt(x, y, j);
      }
    }
  }

  /** The comparison is the precedence of section 11: the numbers in their order, then the prerelease. */
  lemma PrecedenceIsSection11(a: Semver, b: Semver)
    requires Valid(a) && Valid(b)
    ensures Compare(a, b) < 0 <==> Lower(a, b)
    ensures Compare(a, b) > 0 <==> Lower(b, a)
  {
    CompareIntIsNumeric(a.major, b.major);
    CompareIntIsNumeric(a.minor, b.minor);
    CompareIntIsNumeric(a.patch, b.patch);
    CompareIntIsNumeric(b.major, a.major);
    CompareIntIsNumeric(b.minor, a.minor);
    CompareIntIsNumeric(b.patch, a.patch);
    PrereleaseIsLower(a.prerelease, b.prerelease);
    PrereleaseIsLower(b.prerelease, a.prerelease);
    CompareLaws(a, b, a);
  }
}
