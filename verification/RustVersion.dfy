/** Rust version numbers as the package check reads them: two or three dotted decimal parts. */
module RustVersion {
  import opened Wrappers
  import opened Decimal

  datatype Version = Version(major: nat, minor: nat, patch: nat)

  /** The order of the version triples. */
  predicate Exceeds(v: Version, limit: Version) {
    || v.major > limit.major
    || (v.major == limit.major && v.minor > limit.minor)
    || (v.major == limit.major && v.minor == limit.minor && v.patch > limit.patch)
  }

  /** Of two versions that differ, exactly one exceeds the other; none exceeds itself. */
  lemma ExceedsIsTotal(v: Version, limit: Version)
    ensures Exceeds(v, limit) <==> v != limit && !Exceeds(limit, v)
  {
  }

  lemma ExceedsIsTransitive(u: Version, v: Version, w: Version)
    requires Exceeds(u, v) && Exceeds(v, w)
    ensures Exceeds(u, w)
  {
  }

  /** Raising a component exceeds, whatever comes behind it. */
  lemma ExceedsByComponent(v: Version, minor: nat, patch: nat, more: nat)
    ensures Exceeds(Version(v.major + 1 + more, minor, patch), v)
    ensures Exceeds(Version(v.major, v.minor + 1 + more, patch), v)
    ensures Exceeds(Version(v.major, v.minor, v.patch + 1 + more), v)
  {
  }

  predicate IsNumber(s: string) {
    |s| > 0 && forall i | 0 <= i < |s| :: IsDigit(s[i])
  }

  /** The parts between the dots; a text without a dot is one part. */
  function SplitDots(s: string): (parts: seq<string>)
    ensures |parts| > 0
  {
    if s == [] then [[]]
    else
      var rest := SplitDots(s[1..]);
      if s[0] == '.' then [[]] + rest else [[s[0]] + rest[0]] + rest[1..]
  }

  function ParseVersion(value: string): Option<Version> {
    var parts := SplitDots(value);
    if !(2 <= |parts| <= 3) || exists i | 0 <= i < |parts| :: !IsNumber(parts[i]) then None
    else Some(Version(Parse(parts[0]), Parse(parts[1]), if |parts| == 3 then Parse(parts[2]) else 0))
  }

  // ---- What the parser accepts -----------------------------------------------------------

  lemma {:induction false} SplitFirst(first: string, rest: string)
    requires '.' !in first
    ensures SplitDots(first + "." + rest) == [first] + SplitDots(rest)
  {
    if first == [] {
      assert (first + "." + rest)[1..] == rest;
    } else {
      SplitFirst(first[1..], rest);
      assert (first + "." + rest)[1..] == first[1..] + "." + rest;
      assert [first[0]] + first[1..] == first;
    }
  }

  lemma {:induction false} SplitNone(s: string)
    requires '.' !in s
    ensures SplitDots(s) == [s]
  {
    if s != [] {
      SplitNone(s[1..]);
      assert [s[0]] + s[1..] == s;
    }
  }

  function Joined(parts: seq<string>): string
    requires |parts| > 0
  {
    if |parts| == 1 then parts[0] else parts[0] + "." + Joined(parts[1..])
  }

  lemma Regroup(c: char, part: string, rest: string)
    ensures [c] + part + "." + rest == [c] + (part + "." + rest)
  {
  }

  lemma {:induction false} JoinedHead(c: char, parts: seq<string>)
    requires |parts| > 0
    ensures Joined([[c] + parts[0]] + parts[1..]) == [c] + Joined(parts)
  {
    var longer := [[c] + parts[0]] + parts[1..];
    if |parts| > 1 {
      var rest := Joined(parts[1..]);
      assert longer[1..] == parts[1..];
      assert Joined(longer) == [c] + parts[0] + "." + rest;
      assert Joined(parts) == parts[0] + "." + rest;
      hide Joined;
      Regroup(c, parts[0], rest);
    }
  }

  /** Splitting loses nothing. */
  lemma {:induction false} JoinedSplit(s: string)
    ensures Joined(SplitDots(s)) == s
  {
    if s != [] {
      var rest := SplitDots(s[1..]);
      JoinedSplit(s[1..]);
      if s[0] == '.' {
        assert ([[]] + rest)[1..] == rest;
      } else {
        JoinedHead(s[0], rest);
        assert [s[0]] + s[1..] == s;
      }
    }
  }

  ghost predicate TwoParts(value: string, a: string, b: string) {
    IsNumber(a) && IsNumber(b) && value == a + "." + b
  }

  ghost predicate ThreeParts(value: string, a: string, b: string, c: string) {
    IsNumber(a) && IsNumber(b) && IsNumber(c) && value == a + "." + (b + "." + c)
  }

  lemma ReadsTwo(value: string, a: string, b: string)
    requires TwoParts(value, a, b)
    ensures ParseVersion(value) == Some(Version(Parse(a), Parse(b), 0))
  {
    SplitFirst(a, b);
    SplitNone(b);
  }

  lemma ReadsThree(value: string, a: string, b: string, c: string)
    requires ThreeParts(value, a, b, c)
    ensures ParseVersion(value) == Some(Version(Parse(a), Parse(b), Parse(c)))
  {
    SplitFirst(a, b + "." + c);
    SplitFirst(b, c);
    SplitNone(c);
  }

  /** A version is accepted exactly when it is two or three numbers joined by dots. */
  lemma AcceptedIff(value: string)
    ensures ParseVersion(value).Some? <==>
            (exists a, b :: TwoParts(value, a, b)) || (exists a, b, c :: ThreeParts(value, a, b, c))
  {
    if ParseVersion(value).Some? {
      var parts := SplitDots(value);
      JoinedSplit(value);
      if |parts| == 2 {
        assert TwoParts(value, parts[0], parts[1]);
      } else {
        assert Joined(parts[1..]) == parts[1] + "." + parts[2];
        assert ThreeParts(value, parts[0], parts[1], parts[2]);
      }
    } else {
      forall a, b
        ensures !TwoParts(value, a, b)
      {
        if TwoParts(value, a, b) {
          ReadsTwo(value, a, b);
        }
      }
      forall a, b, c
        ensures !ThreeParts(value, a, b, c)
      {
        if ThreeParts(value, a, b, c) {
          ReadsThree(value, a, b, c);
        }
      }
    }
  }

  /** A printed version reads back as itself, with and without a zero patch. */
  lemma VersionRoundTrip(v: Version)
    ensures ParseVersion(Print(v.major) + "." + (Print(v.minor) + "." + Print(v.patch))) == Some(v)
    ensures v.patch == 0 ==> ParseVersion(Print(v.major) + "." + Print(v.minor)) == Some(v)
  {
    var a, b, c := Print(v.major), Print(v.minor), Print(v.patch);
    ParsePrint(v.major);
    ParsePrint(v.minor);
    ParsePrint(v.patch);
    ReadsThree(a + "." + (b + "." + c), a, b, c);
    ReadsTwo(a + "." + b, a, b);
  }
}
