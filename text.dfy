/**
 * String splitting and joining with the meaning of Python's `str.split(sep)`
 * and `sep.join(parts)` for a non-empty separator: the separator's
 * occurrences are found from the left and do not overlap.
 */
module Text {
  import opened Wrappers

  /** `sep` occurs in `s` starting at index `i`. */
  predicate OccursAt(s: string, sep: string, i: nat)
  {
    i + |sep| <= |s| && s[i..i + |sep|] == sep
  }

  /** The index of the leftmost occurrence of `sep` in `s`, if any. */
  function Find(s: string, sep: string): (r: Option<nat>)
    requires sep != []
    ensures r.Some? ==> r.value + |sep| <= |s|
    decreases |s|
  {
    if |s| < |sep| then None
    else if s[..|sep|] == sep then Some(0)
    else match Find(s[1..], sep)
      case None => None
      case Some(i) => Some(i + 1)
  }

  /** What `Find` returns is an occurrence. */
  lemma {:induction false} FindOccurs(s: string, sep: string)
    requires sep != [] && Find(s, sep).Some?
    ensures OccursAt(s, sep, Find(s, sep).value)
    decreases |s|
  {
    if s[..|sep|] != sep {
      FindOccurs(s[1..], sep);
      var i := Find(s[1..], sep).value;
      assert s[1..][i..i + |sep|] == s[i + 1..i + 1 + |sep|];
    }
  }

  /** `Find` gives the leftmost occurrence, and finds one whenever there is one. */
  lemma {:induction false} FindSpec(s: string, sep: string)
    requires sep != []
    ensures Find(s, sep).Some? ==> OccursAt(s, sep, Find(s, sep).value)
    ensures Find(s, sep).Some? ==> forall j :: 0 <= j < Find(s, sep).value ==> !OccursAt(s, sep, j)
    ensures Find(s, sep).None? ==> forall j :: 0 <= j <= |s| ==> !OccursAt(s, sep, j)
    decreases |s|
  {
    if |s| >= |sep| && s[..|sep|] != sep {
      FindSpec(s[1..], sep);
      assert forall j :: 1 <= j <= |s| ==> (OccursAt(s, sep, j) <==> OccursAt(s[1..], sep, j - 1));
    }
  }

  /** Python's `s.split(sep)`: the pieces between the occurrences of `sep`. */
  function Split(s: string, sep: string): (r: seq<string>)
    requires sep != []
    ensures |r| >= 1
    decreases |s|
  {
    match Find(s, sep)
    case None => [s]
    case Some(i) => [s[..i]] + Split(s[i + |sep|..], sep)
  }

  /** Python's `sep.join(parts)`. */
  function Join(parts: seq<string>, sep: string): string
  {
    if parts == [] then ""
    else if |parts| == 1 then parts[0]
    else parts[0] + sep + Join(parts[1..], sep)
  }

  /** The first part starts the join. */
  lemma JoinHead(parts: seq<string>, sep: string)
    requires |parts| >= 1
    ensures parts[0] <= Join(parts, sep)
  {
  }

  /** A character in neither the separator nor any part is not in the join. */
  lemma {:induction false} JoinAvoids(parts: seq<string>, sep: string, c: char)
    requires c !in sep
    requires forall k :: 0 <= k < |parts| ==> c !in parts[k]
    ensures c !in Join(parts, sep)
    decreases |parts|
  {
    if |parts| > 1 {
      JoinAvoids(parts[1..], sep, c);
    }
  }

  /** Joining a head onto a non-empty list of parts puts the separator between them. */
  lemma JoinCons(head: string, parts: seq<string>, sep: string)
    requires |parts| >= 1
    ensures Join([head] + parts, sep) == head + sep + Join(parts, sep)
  {
    assert ([head] + parts)[1..] == parts;
  }

  /** Where `Find` stops, the string is the first piece, the separator, and the rest. */
  lemma SplitAtFound(s: string, sep: string)
    requires sep != [] && Find(s, sep).Some?
    ensures var i := Find(s, sep).value;
      s == s[..i] + sep + s[i + |sep|..] &&
      Split(s, sep) == [s[..i]] + Split(s[i + |sep|..], sep)
  {
    FindOccurs(s, sep);
    var i := Find(s, sep).value;
    SliceThree(s, i, i + |sep|);
  }

  /** A string is the concatenation of its three slices at `i` and `j`. */
  lemma SliceThree(s: string, i: nat, j: nat)
    requires i <= j <= |s|
    ensures s == s[..i] + s[i..j] + s[j..]
  {
  }

  /** Joining the pieces of a split with the same separator gives back the string. */
  lemma {:induction false} JoinSplit(s: string, sep: string)
    requires sep != []
    ensures Join(Split(s, sep), sep) == s
    decreases |s|
  {
    if Find(s, sep).Some? {
      var i := Find(s, sep).value;
      SplitAtFound(s, sep);
      JoinSplit(s[i + |sep|..], sep);
      JoinCons(s[..i], Split(s[i + |sep|..], sep), sep);
    }
  }

  /** No piece of a split contains the separator. */
  lemma {:induction false} SplitPiecesFree(s: string, sep: string)
    requires sep != []
    ensures forall k :: 0 <= k < |Split(s, sep)| ==> Find(Split(s, sep)[k], sep).None?
    decreases |s|
  {
    FindSpec(s, sep);
    match Find(s, sep)
    case None =>
    case Some(i) =>
      var rest := s[i + |sep|..];
      SplitPiecesFree(rest, sep);
      var p := s[..i];
      FindSpec(p, sep);
      forall j | 0 <= j <= |p| ensures !OccursAt(p, sep, j) {
        assert j + |sep| <= |p| ==> p[j..j + |sep|] == s[j..j + |sep|];
        assert j < i ==> !OccursAt(s, sep, j);
      }
  }

  /** A string without the separator's first character does not contain it. */
  lemma FindAbsent(s: string, sep: string)
    requires sep != [] && sep[0] !in s
    ensures Find(s, sep).None?
  {
    FindSpec(s, sep);
    forall j | 0 <= j <= |s| ensures !OccursAt(s, sep, j) {
      assert j + |sep| <= |s| ==> s[j..j + |sep|][0] == s[j] != sep[0];
    }
  }

  /** For a one-character separator, "does not contain" means "does not hold that character". */
  lemma FindChar(s: string, c: char)
    ensures Find(s, [c]).None? <==> c !in s
  {
    FindSpec(s, [c]);
    if c in s {
      var j :| 0 <= j < |s| && s[j] == c;
      assert OccursAt(s, [c], j);
    } else {
      FindAbsent(s, [c]);
    }
  }

  /**
   * When the head `a` holds no character that starts the separator, the first
   * occurrence of `sep` in `a + sep + b` is the one right after `a`.
   */
  lemma SplitAfterClean(a: string, sep: string, b: string)
    requires sep != [] && sep[0] !in a
    ensures Split(a + sep + b, sep) == [a] + Split(b, sep)
  {
    var s := a + sep + b;
    assert OccursAt(s, sep, |a|);
    FindSpec(s, sep);
    forall j | 0 <= j < |a| ensures !OccursAt(s, sep, j) {
      assert s[j..j + |sep|][0] == s[j] == a[j] != sep[0];
    }
    assert Find(s, sep) == Some(|a|);
    assert s[..|a|] == a;
    assert s[|a| + |sep|..] == b;
  }

  /** A string holding no character that starts the separator splits into itself. */
  lemma SplitClean(a: string, sep: string)
    requires sep != [] && sep[0] !in a
    ensures Split(a, sep) == [a]
  {
    FindAbsent(a, sep);
  }

  /**
   * Splitting a join gives back the parts, when no part holds the
   * separator's first character (for a one-character separator: when no
   * part holds the separator).
   */
  lemma {:induction false} SplitJoin(parts: seq<string>, sep: string)
    requires sep != [] && |parts| >= 1
    requires forall k :: 0 <= k < |parts| ==> sep[0] !in parts[k]
    ensures Split(Join(parts, sep), sep) == parts
  {
    if |parts| == 1 {
      SplitClean(parts[0], sep);
    } else {
      SplitJoin(parts[1..], sep);
      SplitAfterClean(parts[0], sep, Join(parts[1..], sep));
      assert parts == [parts[0]] + parts[1..];
    }
  }

  /** Splitting on one character gives one more piece than there are occurrences of it. */
  lemma {:induction false} SplitCount(s: string, c: char)
    ensures |Split(s, [c])| == multiset(s)[c] + 1
    decreases |s|
  {
    FindChar(s, c);
    if Find(s, [c]).Some? {
      var i := Find(s, [c]).value;
      FindCharFirst(s, c);
      SplitAtFound(s, [c]);
      SplitCount(s[i + 1..], c);
      CountAround(s[..i], c, s[i + 1..]);
    }
  }

  /** The character `Find` stops at is the first occurrence of it. */
  lemma FindCharFirst(s: string, c: char)
    requires Find(s, [c]).Some?
    ensures c !in s[..Find(s, [c]).value]
  {
    FindSpec(s, [c]);
    var i := Find(s, [c]).value;
    forall j | 0 <= j < i ensures s[..i][j] != c {
      assert s[j..j + 1] == [s[j]];
    }
  }

  /** One more occurrence of `c` between a head free of it and a tail. */
  lemma CountAround(a: string, c: char, b: string)
    requires c !in a
    ensures multiset(a + [c] + b)[c] == multiset(b)[c] + 1
  {
    assert multiset(a + [c] + b) == multiset(a) + multiset{c} + multiset(b);
  }
}
