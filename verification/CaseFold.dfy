/** Caseless comparison of display names. */
module CaseFold {
  import opened CaseFoldTable
  import opened Wrappers
  import Decimal

  /** A row of the sorted folding table. */
  datatype Entry = Entry(point: char, replacement: string)

  /** The folding of one character. */
  function FoldChar(c: char): (r: string)
    ensures |r| > 0
  {
    ReplacementsAreSettled(c as int);
    var folded := FoldPoint(c as int);
    seq(|folded|, i requires 0 <= i < |folded| => folded[i] as char)
  }

  /** Full case folding, character by character. */
  function Fold(name: string): string {
    if name == [] then [] else FoldChar(name[0]) + Fold(name[1..])
  }

  /** Two names that no registry lets two records show at once. */
  predicate Clash(a: string, b: string) {
    Fold(a) == Fold(b)
  }

  /**
   * The sorted table of the characters below `limit` that do not fold to
   * themselves.
   */
  ghost predicate TableBelow(table: seq<Entry>, limit: int) {
    && (forall i, j | 0 <= i < j < |table| :: table[i].point < table[j].point)
    && (forall i | 0 <= i < |table| ::
          && (table[i].point as int) < limit
          && table[i].replacement == FoldChar(table[i].point) != [table[i].point])
    && (forall c: char | (c as int) < limit && FoldChar(c) != [c] ::
          exists i :: 0 <= i < |table| && table[i].point == c)
  }

  /** The whole table. */
  ghost predicate WholeTable(table: seq<Entry>) {
    TableBelow(table, 0x110000)
  }

  /** Such a table exists for every limit, hence `WholeTable` is not empty. */
  lemma {:induction false} BuildTable(limit: nat) returns (table: seq<Entry>)
    requires limit <= 0x110000
    ensures TableBelow(table, limit)
  {
    hide FoldChar;
    if limit == 0 {
      table := [];
    } else {
      var below := BuildTable(limit - 1);
      if Scalar(limit - 1) && FoldChar((limit - 1) as char) != [(limit - 1) as char] {
        var c := (limit - 1) as char;
        table := below + [Entry(c, FoldChar(c))];
        assert table[|below|].point == c;
        forall d: char | (d as int) < limit && FoldChar(d) != [d]
          ensures exists i :: 0 <= i < |table| && table[i].point == d
        {
          if d != c {
            var i :| 0 <= i < |below| && below[i].point == d;
            assert table[i].point == d;
          }
        }
      } else {
        table := below;
      }
    }
  }

  /** Binary search by key in a table sorted strictly by that key. */
  method BinarySearch(table: seq<Entry>, c: char) returns (found: Option<nat>)
    requires forall i, j | 0 <= i < j < |table| :: table[i].point < table[j].point
    ensures found.Some? ==> found.value < |table| && table[found.value].point == c
    ensures found.None? ==> forall i | 0 <= i < |table| :: table[i].point != c
  {
    var lo, hi := 0, |table|;
    while lo < hi
      invariant 0 <= lo <= hi <= |table|
      invariant forall i | 0 <= i < lo :: table[i].point < c
      invariant forall i | hi <= i < |table| :: c < table[i].point
    {
      var mid := lo + (hi - lo) / 2;
      if table[mid].point < c {
        lo := mid + 1;
      } else if c < table[mid].point {
        hi := mid;
      } else {
        return Some(mid);
      }
    }
    return None;
  }

  lemma FoldStep(name: string, i: nat)
    requires i < |name|
    ensures Fold(name[i..]) == FoldChar(name[i]) + Fold(name[i + 1..])
  {
    hide FoldChar;
    assert name[i..][1..] == name[i + 1..];
  }

  /** One character's replacement, looked up. */
  method FoldOne(table: seq<Entry>, c: char) returns (folded: string)
    requires WholeTable(table)
    ensures folded == FoldChar(c)
  {
    hide FoldChar;
    var found := BinarySearch(table, c);
    folded := if found.Some? then table[found.value].replacement else [c];
  }

  /** The table-driven key is the folding. */
  method ComparisonKey(table: seq<Entry>, name: string) returns (key: string)
    requires WholeTable(table)
    ensures key == Fold(name)
  {
    assert Fold(name[|name|..]) == "";
    assert name[0..] == name;
    hide FoldChar, Fold, WholeTable;
    key := "";
    for i := 0 to |name|
      invariant key + Fold(name[i..]) == Fold(name)
    {
      var folded := FoldOne(table, name[i]);
      FoldStep(name, i);
      assert key + (folded + Fold(name[i + 1..])) == (key + folded) + Fold(name[i + 1..]);
      key := key + folded;
    }
  }

  lemma {:induction false} FoldConcat(a: string, b: string)
    ensures Fold(a + b) == Fold(a) + Fold(b)
  {
    hide FoldChar;
    if a == [] {
      assert a + b == b;
    } else {
      assert (a + b)[1..] == a[1..] + b;
      FoldConcat(a[1..], b);
    }
  }

  /** A string of characters the table does not list is its own key. */
  lemma {:induction false} FoldFixes(s: string)
    requires forall i | 0 <= i < |s| :: FoldChar(s[i]) == [s[i]]
    ensures Fold(s) == s
  {
    hide FoldChar;
    if s != [] {
      FoldFixes(s[1..]);
      assert s == [s[0]] + s[1..];
    }
  }

  lemma ReplacementFixed(c: char)
    ensures Fold(FoldChar(c)) == FoldChar(c)
  {
    ReplacementsAreSettled(c as int);
    var r := FoldChar(c);
    forall i | 0 <= i < |r| ensures FoldChar(r[i]) == [r[i]] {
      var p := FoldPoint(c as int)[i];
      assert r[i] as int == p && Unmapped(p);
    }
    FoldFixes(r);
  }

  /** A comparison key is its own comparison key. */
  lemma {:induction false} FoldIdempotent(name: string)
    ensures Fold(Fold(name)) == Fold(name)
  {
    hide FoldChar;
    if name != [] {
      FoldConcat(FoldChar(name[0]), Fold(name[1..]));
      ReplacementFixed(name[0]);
      FoldIdempotent(name[1..]);
    }
  }

  /** Lowercase ASCII letters and decimal digits, the alphabet of generated names. */
  predicate Plain(c: char) {
    'a' <= c <= 'z' || Decimal.IsDigit(c)
  }

  lemma PlainFixed(c: char)
    requires Plain(c)
    ensures FoldChar(c) == [c]
  {
    assert FoldPoint(c as int) == [c as int];
  }

  /** Generated candidates are already comparison keys. */
  lemma PlainIsOwnKey(s: string)
    requires forall i | 0 <= i < |s| :: Plain(s[i])
    ensures Fold(s) == s
  {
    hide FoldChar;
    forall i | 0 <= i < |s| ensures FoldChar(s[i]) == [s[i]] {
      PlainFixed(s[i]);
    }
    FoldFixes(s);
  }

  /** The pinned pairs: both sigmas, and Cherokee. */
  lemma FoldPairs()
    ensures Fold("\U{3A3}\U{3C2}") == "\U{3C3}\U{3C3}"
    ensures Fold("\U{13A0}\U{AB70}") == "\U{13A0}\U{13A0}"
  {
  }

  /** The pinned single characters: no normalization happens. */
  lemma FoldExamples()
    ensures Fold("\U{130}") == "i\U{307}"
    ensures Fold("\U{FB03}") == "ffi"
    ensures Fold("\U{E9}") != Fold("e\U{301}")
    ensures Fold("i") == "i"
    ensures Fold("\U{131}") == "\U{131}"
  {
  }

  /** Every ASCII capital folds to its small letter, and every other ASCII character to itself. */
  lemma AsciiFolds(c: char)
    requires (c as int) < 0x80
    ensures FoldChar(c) == if 'A' <= c <= 'Z' then [(c as int + 32) as char] else [c]
  {
  }

  /** Code points that Unicode 15.0 does not assign keep their spelling. */
  lemma UnassignedKeepSpelling()
    ensures Fold("\U{A7CB}") == "\U{A7CB}" && Fold("\U{A7DC}") == "\U{A7DC}" && Fold("\U{10D50}") == "\U{10D50}"
  {
  }

  lemma FoldPinned()
    ensures Fold("\U{17F}") == "s" && Fold("\U{DF}") == "ss" && Fold("S") == "s"
  {
  }

  /** The pinned words with a long s and a sharp s. */
  lemma FoldWords()
    ensures Fold("\U{17F}" + "am") == "sam"
    ensures Fold("S" + ("tra" + ("\U{DF}" + "e"))) == "strasse"
  {
    FoldPinned();
    PlainIsOwnKey("am");
    PlainIsOwnKey("tra");
    PlainIsOwnKey("e");
    hide *;
    FoldConcat("\U{17F}", "am");
    FoldConcat("S", "tra" + ("\U{DF}" + "e"));
    FoldConcat("tra", "\U{DF}" + "e");
    FoldConcat("\U{DF}", "e");
  }
}
