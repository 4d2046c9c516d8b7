/** Which explicit names are accepted, for clients and participants alike. */
module NameRules {
  import opened Wrappers

  /** Counted in characters, after trimming. */
  const NAME_CAP: nat := 64

  datatype NameError = Empty | TooLong | Control | Format

  /** The Unicode White_Space characters, which trimming removes. */
  predicate IsSpace(c: char) {
    var p := c as int;
    || 0x9 <= p <= 0xD || p == 0x20 || p == 0x85 || p == 0xA0 || p == 0x1680 || 0x2000 <= p <= 0x200A
    || p == 0x2028 || p == 0x2029 || p == 0x202F || p == 0x205F || p == 0x3000
  }

  /** General category Cc. */
  predicate IsControl(c: char) {
    var p := c as int;
    p < 0x20 || 0x7F <= p < 0xA0
  }

  /** The Unicode 15.0.0 ranges of general category Cf. */
  const FORMAT_RANGES: seq<(int, int)> := [
    (0xAD, 0xAD), (0x600, 0x605), (0x61C, 0x61C), (0x6DD, 0x6DD), (0x70F, 0x70F), (0x890, 0x891),
    (0x8E2, 0x8E2), (0x180E, 0x180E), (0x200B, 0x200F), (0x202A, 0x202E), (0x2060, 0x2064),
    (0x2066, 0x206F), (0xFEFF, 0xFEFF), (0xFFF9, 0xFFFB), (0x110BD, 0x110BD), (0x110CD, 0x110CD),
    (0x13430, 0x1343F), (0x1BCA0, 0x1BCA3), (0x1D173, 0x1D17A), (0xE0001, 0xE0001), (0xE0020, 0xE007F)]

  predicate InRanges(ranges: seq<(int, int)>, p: int) {
    exists i | 0 <= i < |ranges| :: ranges[i].0 <= p <= ranges[i].1
  }

  predicate IsFormat(c: char) {
    InRanges(FORMAT_RANGES, c as int)
  }

  function TrimStart(s: string): (t: string)
    ensures t != [] ==> !IsSpace(t[0])
  {
    if s != [] && IsSpace(s[0]) then TrimStart(s[1..]) else s
  }

  function TrimEnd(s: string): (t: string)
    ensures t != [] ==> !IsSpace(t[|t| - 1])
    ensures t <= s
  {
    if s != [] && IsSpace(s[|s| - 1]) then TrimEnd(s[..|s| - 1]) else s
  }

  function Trim(s: string): string {
    TrimEnd(TrimStart(s))
  }

  function Validate(name: string): Result<string, NameError> {
    var trimmed := Trim(name);
    if trimmed == [] then Err(Empty)
    else if |trimmed| > NAME_CAP then Err(TooLong)
    else if exists i | 0 <= i < |name| :: IsControl(name[i]) then Err(Control)
    else if exists i | 0 <= i < |name| :: IsFormat(name[i]) then Err(Format)
    else Ok(trimmed)
  }

  /** An explicit name that passes, or no explicit name. */
  predicate WellFormed(name: Option<string>) {
    name.None? || Validate(name.value).Ok?
  }

  /** The form in which a well-formed name is stored. */
  function Stored(name: Option<string>): Option<string> {
    if name.Some? && Validate(name.value).Ok? then Some(Validate(name.value).value) else name
  }

  /** The name is well-formed and stored as it is. */
  predicate Accepted(name: Option<string>) {
    WellFormed(name) && Stored(name) == name
  }

  lemma {:induction false} TrimStartDrops(s: string) returns (k: nat)
    ensures k <= |s| && TrimStart(s) == s[k..] && forall i | 0 <= i < k :: IsSpace(s[i])
  {
    hide IsSpace;
    if s != [] && IsSpace(s[0]) {
      k := TrimStartDrops(s[1..]);
      assert s[1..][k..] == s[k + 1..];
      assert forall i | 0 <= i < k + 1 :: i == 0 || s[i] == s[1..][i - 1];
      k := k + 1;
    } else {
      k := 0;
    }
  }

  lemma {:induction false} TrimEndDrops(s: string)
    ensures TrimEnd(s) <= s && forall i | |TrimEnd(s)| <= i < |s| :: IsSpace(s[i])
  {
    hide IsSpace;
    if s != [] && IsSpace(s[|s| - 1]) {
      TrimEndDrops(s[..|s| - 1]);
    }
  }

  /** A name is accepted as itself exactly when it meets the rules and has no outer space. */
  lemma AcceptedUnchanged(name: string)
    ensures Validate(name) == Ok(name) <==>
            && 0 < |name| <= NAME_CAP && !IsSpace(name[0]) && !IsSpace(name[|name| - 1])
            && forall i | 0 <= i < |name| :: !IsControl(name[i]) && !IsFormat(name[i])
  {
    hide IsFormat;
    if name != [] && !IsSpace(name[0]) && !IsSpace(name[|name| - 1]) {
      assert Trim(name) == name;
    }
    var dropped := TrimStartDrops(name);
    if Trim(name) == name && name != [] {
      assert |TrimStart(name)| == |name|;
    }
  }

  /** Trimming keeps one stretch of the name; all that it drops is white space, and none is left outside. */
  lemma TrimIsStretch(name: string) returns (i: nat, j: nat)
    ensures i <= j <= |name| && Trim(name) == name[i..j]
    ensures forall k | 0 <= k < |name| && !(i <= k < j) :: IsSpace(name[k])
    ensures i < j ==> !IsSpace(name[i]) && !IsSpace(name[j - 1])
  {
    i := TrimStartDrops(name);
    var rest := name[i..];
    TrimEndDrops(rest);
    j := i + |Trim(name)|;
    StoredHasNoOuterSpace(name);
    hide IsSpace;
    assert Trim(name) == rest[..|Trim(name)|] == name[i..j];
    forall k | j <= k < |name|
      ensures IsSpace(name[k])
    {
      assert name[k] == rest[k - i];
    }
  }

  /**
   * A name is accepted exactly if its trimmed form has 1 to 64 characters and
   * the whole name has no control or format character; it is stored trimmed.
   * The refusals come in that order.
   */
  lemma ValidateIff(name: string)
    ensures var trimmed := Trim(name);
            var controlled := exists i | 0 <= i < |name| :: IsControl(name[i]);
            var formatted := exists i | 0 <= i < |name| :: IsFormat(name[i]);
            && (Validate(name).Ok? <==> 1 <= |trimmed| <= 64 && !controlled && !formatted)
            && (Validate(name).Ok? ==> Validate(name).value == trimmed)
            && (Validate(name) == Err(Empty) <==> |trimmed| == 0)
            && (Validate(name) == Err(TooLong) <==> |trimmed| > 64)
            && (Validate(name) == Err(Control) <==> 1 <= |trimmed| <= 64 && controlled)
            && (Validate(name) == Err(Format) <==> 1 <= |trimmed| <= 64 && !controlled && formatted)
  {
    hide IsFormat, IsControl, Trim;
  }

  lemma RangesConcat(a: seq<(int, int)>, b: seq<(int, int)>, p: int)
    ensures InRanges(a + b, p) <==> InRanges(a, p) || InRanges(b, p)
  {
    if i :| 0 <= i < |a| && a[i].0 <= p <= a[i].1 {
      assert (a + b)[i] == a[i];
    }
    if i :| 0 <= i < |b| && b[i].0 <= p <= b[i].1 {
      assert (a + b)[|a| + i] == b[i];
    }
  }

  lemma FirstRanges(p: int)
    ensures InRanges(FORMAT_RANGES[0..7], p) <==>
            || p == 0xAD || 0x600 <= p <= 0x605 || p == 0x61C || p == 0x6DD
            || p == 0x70F || 0x890 <= p <= 0x891 || p == 0x8E2
  {
    var part := [(0xAD, 0xAD), (0x600, 0x605), (0x61C, 0x61C), (0x6DD, 0x6DD), (0x70F, 0x70F), (0x890, 0x891), (0x8E2, 0x8E2)];
    assert FORMAT_RANGES[0..7] == part;
    assert InRanges(part, p) <==> exists i | 0 <= i < 7 :: part[i].0 <= p <= part[i].1;
    var r0 := part[0]; var r1 := part[1]; var r2 := part[2]; var r3 := part[3]; var r4 := part[4]; var r5 := part[5]; var r6 := part[6];
  }

  lemma SecondRanges(p: int)
    ensures InRanges(FORMAT_RANGES[7..14], p) <==>
            || p == 0x180E || 0x200B <= p <= 0x200F || 0x202A <= p <= 0x202E || 0x2060 <= p <= 0x2064
            || 0x2066 <= p <= 0x206F || p == 0xFEFF || 0xFFF9 <= p <= 0xFFFB
  {
    var part := [(0x180E, 0x180E), (0x200B, 0x200F), (0x202A, 0x202E), (0x2060, 0x2064), (0x2066, 0x206F), (0xFEFF, 0xFEFF), (0xFFF9, 0xFFFB)];
    assert FORMAT_RANGES[7..14] == part;
    assert InRanges(part, p) <==> exists i | 0 <= i < 7 :: part[i].0 <= p <= part[i].1;
    var r0 := part[0]; var r1 := part[1]; var r2 := part[2]; var r3 := part[3]; var r4 := part[4]; var r5 := part[5]; var r6 := part[6];
  }

  lemma ThirdRanges(p: int)
    ensures InRanges(FORMAT_RANGES[14..21], p) <==>
            || p == 0x110BD || p == 0x110CD || 0x13430 <= p <= 0x1343F || 0x1BCA0 <= p <= 0x1BCA3
            || 0x1D173 <= p <= 0x1D17A || p == 0xE0001 || 0xE0020 <= p <= 0xE007F
  {
    var part := [(0x110BD, 0x110BD), (0x110CD, 0x110CD), (0x13430, 0x1343F), (0x1BCA0, 0x1BCA3), (0x1D173, 0x1D17A), (0xE0001, 0xE0001), (0xE0020, 0xE007F)];
    assert FORMAT_RANGES[14..21] == part;
    assert InRanges(part, p) <==> exists i | 0 <= i < 7 :: part[i].0 <= p <= part[i].1;
    var r0 := part[0]; var r1 := part[1]; var r2 := part[2]; var r3 := part[3]; var r4 := part[4]; var r5 := part[5]; var r6 := part[6];
  }

  /** The format characters that the range table lists, range by range. */
  lemma FormatIff(c: char)
    ensures var p := c as int;
            IsFormat(c) <==>
            || p == 0xAD || 0x600 <= p <= 0x605 || p == 0x61C || p == 0x6DD || p == 0x70F || 0x890 <= p <= 0x891
            || p == 0x8E2 || p == 0x180E || 0x200B <= p <= 0x200F || 0x202A <= p <= 0x202E || 0x2060 <= p <= 0x2064 || 0x2066 <= p <= 0x206F
            || p == 0xFEFF || 0xFFF9 <= p <= 0xFFFB || p == 0x110BD || p == 0x110CD || 0x13430 <= p <= 0x1343F || 0x1BCA0 <= p <= 0x1BCA3
            || 0x1D173 <= p <= 0x1D17A || p == 0xE0001 || 0xE0020 <= p <= 0xE007F
  {
    var p := c as int;
    FirstRanges(p);
    SecondRanges(p);
    ThirdRanges(p);
    RangesConcat(FORMAT_RANGES[0..7], FORMAT_RANGES[7..14], p);
    RangesConcat(FORMAT_RANGES[0..7] + FORMAT_RANGES[7..14], FORMAT_RANGES[14..21], p);
    hide InRanges;
    assert FORMAT_RANGES == FORMAT_RANGES[0..7] + FORMAT_RANGES[7..14] + FORMAT_RANGES[14..21];
  }

  /** What is accepted is stored in a form that is accepted unchanged. */
  lemma ValidateIdempotent(name: string)
    ensures Validate(name).Ok? ==> Validate(Validate(name).value) == Validate(name)
  {
    if Validate(name).Ok? {
      var stored := Validate(name).value;
      var i, j := TrimIsStretch(name);
      AcceptedUnchanged(stored);
      hide IsFormat, IsControl, IsSpace, Trim;
      assert forall k | 0 <= k < |stored| :: stored[k] == name[i + k];
    }
  }

  /** What is stored of a well-formed name is accepted as it is. */
  lemma StoredIsAccepted(name: Option<string>)
    requires WellFormed(name)
    ensures Accepted(Stored(name))
  {
    if name.Some? {
      hide Validate;
      ValidateIdempotent(name.value);
    }
  }

  lemma StoredHasNoOuterSpace(name: string)
    ensures var t := Trim(name); t != [] ==> !IsSpace(t[0]) && !IsSpace(t[|t| - 1])
  {
    hide IsSpace;
    var u, t := TrimStart(name), Trim(name);
    if t != [] {
      assert t <= u && t[0] == u[0];
    }
  }
}
