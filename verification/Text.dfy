/**
 Searching and splitting text: the two primitives that the message parser
 (find on a space, '=' or ';') and the line splitter (strtok_r on CR and LF)
 share. Characters model C++ bytes; views into a buffer are modelled as values.
 */
module Text {

  const SPACE: set<char> := {' '}

  /** `r` is the first index at or after `from` whose character is in `ds`, or
      the length of `s` (which stands for `npos`: a hit is always below it). */
  predicate IsFirst(s: string, ds: set<char>, from: nat, r: nat) {
    && from <= r <= |s|
    && (r < |s| ==> s[r] in ds)
    && forall j :: from <= j < r ==> s[j] !in ds
  }

  lemma {:induction false} FirstExists(s: string, ds: set<char>, from: nat)
    requires from <= |s|
    ensures exists r :: IsFirst(s, ds, from, r)
    decreases |s| - from
  {
    if from == |s| || s[from] in ds {
      assert IsFirst(s, ds, from, from);
    } else {
      FirstExists(s, ds, from + 1);
      var r :| IsFirst(s, ds, from + 1, r);
      assert IsFirst(s, ds, from, r);
    }
  }

  function Find(s: string, ds: set<char>, from: nat): (r: nat)
    requires from <= |s|
    ensures IsFirst(s, ds, from, r)
  {
    FirstExists(s, ds, from);
    var r: nat :| r <= |s| && IsFirst(s, ds, from, r);
    r
  }

  /** The first index at or after `from` whose character is not in `ds`. */
  function FindNot(s: string, ds: set<char>, from: nat): (r: nat)
    requires from <= |s|
    ensures from <= r <= |s|
    ensures r < |s| ==> s[r] !in ds
    ensures forall j :: from <= j < r ==> s[j] in ds
    decreases |s| - from
  {
    if from == |s| || s[from] !in ds then from else FindNot(s, ds, from + 1)
  }

  /** The fields of `s`: what is left when every character of `ds` is a separator. */
  function Fields(s: string, ds: set<char>): seq<string>
    decreases |s|
  {
    if s == "" then []
    else if s[0] in ds then Fields(s[1..], ds)
    else var e := Find(s, ds, 0); [s[..e]] + Fields(s[e..], ds)
  }

  function Join(ws: seq<string>, sep: char): string {
    if |ws| == 0 then ""
    else if |ws| == 1 then ws[0]
    else ws[0] + [sep] + Join(ws[1..], sep)
  }

  function Flatten<T>(ss: seq<seq<T>>): seq<T> {
    if |ss| == 0 then [] else ss[0] + Flatten(ss[1..])
  }

  predicate Avoids(s: string, ds: set<char>) {
    forall j :: 0 <= j < |s| ==> s[j] !in ds
  }

  /** A nonempty text with no character of `ds`. */
  predicate Token(s: string, ds: set<char>) { s != "" && Avoids(s, ds) }

  lemma AvoidsConcat(a: string, b: string, ds: set<char>)
    requires Avoids(a, ds) && Avoids(b, ds)
    ensures Avoids(a + b, ds)
  {
  }

  ghost predicate Tokens(ws: seq<string>, ds: set<char>) {
    forall k :: 0 <= k < |ws| ==> Token(ws[k], ds)
  }

  /** `s[i..j]` is a maximal stretch without a character of `ds`. */
  predicate IsRun(s: string, ds: set<char>, i: nat, j: nat) {
    && i < j <= |s|
    && (forall k :: i <= k < j ==> s[k] !in ds)
    && (i == 0 || s[i - 1] in ds)
    && (j == |s| || s[j] in ds)
  }

  /** Where the fields of `s` lie from position `from` on. */
  ghost function Spans(s: string, ds: set<char>, from: nat): seq<(nat, nat)>
    requires from <= |s|
    decreases |s| - from
  {
    if from == |s| then []
    else if s[from] in ds then Spans(s, ds, from + 1)
    else var e := Find(s, ds, from); [(from, e)] + Spans(s, ds, e)
  }

  /** Searching a suffix is searching the text from a later start. */
  lemma {:induction false} FindInSuffix(s: string, ds: set<char>, k: nat, from: nat)
    requires k <= from <= |s|
    ensures Find(s, ds, from) == k + Find(s[k..], ds, from - k)
  {
    var r := k + Find(s[k..], ds, from - k);
    assert forall j :: from <= j < r ==> s[j] == s[k..][j - k];
    assert IsFirst(s, ds, from, r);
  }

  lemma SliceOfSuffix(s: string, k: nat, a: nat, b: nat)
    requires k <= a <= b <= |s|
    ensures s[k..][a - k..b - k] == s[a..b]
    ensures s[k..][a - k..] == s[a..]
  {
  }

  lemma SamePrefix(p: string, a: string, b: string)
    requires p + a == p + b
    ensures a == b
  {
    assert a == (p + a)[|p|..];
    assert b == (p + b)[|p|..];
  }

  /** Two cuts of one sequence at the same place. */
  lemma SameParts<T>(a: seq<T>, b: seq<T>, c: seq<T>, d: seq<T>)
    requires |a| <= |b| && |c| <= |d| && a + c == b + d
    ensures a == b && c == d
  {
    assert |a| == |b|;
    assert a == (a + c)[..|a|] && b == (b + d)[..|b|];
    assert c == (a + c)[|a|..] && d == (b + d)[|b|..];
  }

  lemma NotInSlice(s: string, c: char, a: nat, b: nat)
    requires a <= b <= |s| && forall j :: a <= j < b ==> s[j] != c
    ensures c !in s[a..b]
  {
  }

  lemma FindBeforeCut(a: string, d: char, b: string, ds: set<char>)
    requires d in ds
    ensures Find(a + [d] + b, ds, 0) == Find(a, ds, 0)
    ensures (a + [d] + b)[..Find(a, ds, 0)] == a[..Find(a, ds, 0)]
    ensures (a + [d] + b)[Find(a, ds, 0)..] == a[Find(a, ds, 0)..] + [d] + b
  {
    var s, e := a + [d] + b, Find(a, ds, 0);
    assert forall j :: 0 <= j < |a| ==> s[j] == a[j];
    assert s[|a|] == d;
    assert IsFirst(s, ds, 0, e);
  }

  /** Splitting at a separator: the fields of the two sides, side by side. */
  lemma {:induction false} FieldsCut(a: string, d: char, b: string, ds: set<char>)
    requires d in ds
    ensures Fields(a + [d] + b, ds) == Fields(a, ds) + Fields(b, ds)
    decreases |a|
  {
    var s := a + [d] + b;
    if a == "" {
      assert s[1..] == b;
    } else if a[0] in ds {
      assert s[1..] == a[1..] + [d] + b;
      FieldsCut(a[1..], d, b, ds);
    } else {
      var e := Find(a, ds, 0);
      FindBeforeCut(a, d, b, ds);
      FieldsCut(a[e..], d, b, ds);
      assert [a[..e]] + (Fields(a[e..], ds) + Fields(b, ds)) == ([a[..e]] + Fields(a[e..], ds)) + Fields(b, ds);
    }
  }

  /** A text that ends in a separator can be split off: what follows does not matter to it. */
  lemma FieldsAppend(a: string, b: string, ds: set<char>)
    requires a == "" || a[|a| - 1] in ds
    ensures Fields(a + b, ds) == Fields(a, ds) + Fields(b, ds)
  {
    if a == "" {
      assert a + b == b;
    } else {
      var a', d := a[..|a| - 1], a[|a| - 1];
      assert a + b == a' + [d] + b;
      FieldsCut(a', d, b, ds);
      assert a == a' + [d] + "";
      FieldsCut(a', d, "", ds);
    }
  }

  lemma FieldsOfToken(w: string, ds: set<char>)
    requires Token(w, ds)
    ensures Fields(w, ds) == [w]
  {
    assert Find(w, ds, 0) == |w|;
    assert w[..|w|] == w && w[|w|..] == "";
  }

  /** Splitting undoes joining. */
  lemma {:induction false} FieldsOfJoin(ws: seq<string>, sep: char, ds: set<char>)
    requires sep in ds && Tokens(ws, ds)
    ensures Fields(Join(ws, sep), ds) == ws
  {
    if |ws| >= 1 {
      FieldsOfToken(ws[0], ds);
    }
    if |ws| >= 2 {
      FieldsCut(ws[0], sep, Join(ws[1..], sep), ds);
      FieldsOfJoin(ws[1..], sep, ds);
    }
  }

  function TrailingSpaces(s: string): (r: string)
    ensures |r| <= |s| && forall j :: 0 <= j < |r| ==> r[j] == ' '
  {
    if s == "" || s[|s| - 1] != ' ' then "" else TrailingSpaces(s[..|s| - 1]) + " "
  }

  /** `s` ends with `t`. */
  predicate EndsWith(s: string, t: string) { |t| <= |s| && s[|s| - |t|..] == t }

  lemma {:induction false} LastFieldEnds(s: string)
    requires s != "" && s[|s| - 1] != ' '
    ensures var fs := Fields(s, SPACE); fs != [] && EndsWith(s, fs[|fs| - 1])
    decreases |s|
  {
    if s[0] == ' ' {
      LastFieldEnds(s[1..]);
    } else {
      var e := Find(s, SPACE, 0);
      if e == |s| {
        assert s[..e] == s && s[e..] == "";
      } else {
        LastFieldEnds(s[e..]);
      }
    }
  }

  /** Behind the last word of a text there are only its trailing spaces. */
  lemma {:induction false} LastFieldTail(s: string)
    requires Fields(s, SPACE) != []
    ensures var fs := Fields(s, SPACE); EndsWith(s, fs[|fs| - 1] + TrailingSpaces(s))
    decreases |s|
  {
    hide Fields;
    if s == "" {
      NoFieldsOfNothing(SPACE);
    } else if s[|s| - 1] == ' ' {
      var a := s[..|s| - 1];
      assert s == a + [' '] + "";
      FieldsCut(a, ' ', "", SPACE);
      NoFieldsOfNothing(SPACE);
      assert Fields(a, SPACE) + [] == Fields(a, SPACE);
      LastFieldTail(a);
      var w := Fields(a, SPACE)[|Fields(a, SPACE)| - 1];
      assert w + (TrailingSpaces(a) + " ") == (w + TrailingSpaces(a)) + " ";
    } else {
      LastFieldEnds(s);
      var w := Fields(s, SPACE)[|Fields(s, SPACE)| - 1];
      assert w + "" == w;
    }
  }

  lemma NoFieldsOfNothing(ds: set<char>)
    ensures Fields("", ds) == []
  {
  }

  lemma {:induction false} FieldsAreTokens(s: string, ds: set<char>)
    ensures Tokens(Fields(s, ds), ds)
    decreases |s|
  {
    if s != "" {
      if s[0] in ds {
        FieldsAreTokens(s[1..], ds);
      } else {
        FieldsAreTokens(s[Find(s, ds, 0)..], ds);
      }
    }
  }

  /** Joining the fields back never makes the text longer. */
  lemma {:induction false} JoinOfFieldsShrinks(s: string, sep: char, ds: set<char>)
    ensures |Join(Fields(s, ds), sep)| <= |s|
    decreases |s|
  {
    if s != "" {
      if s[0] in ds {
        JoinOfFieldsShrinks(s[1..], sep, ds);
      } else {
        var e := Find(s, ds, 0);
        if e < |s| {
          JoinOfFieldsShrinks(s[e + 1..], sep, ds);
          assert s[e..][1..] == s[e + 1..];
          assert Fields(s, ds)[1..] == Fields(s[e + 1..], ds);
        } else {
          assert Fields(s[e..], ds) == [];
        }
      }
    }
  }

  /** Maximal runs from `from` on, in order, and not touching. */
  ghost predicate RunsFrom(s: string, ds: set<char>, from: nat, p: seq<(nat, nat)>) {
    && (forall k :: 0 <= k < |p| ==> from <= p[k].0 && IsRun(s, ds, p[k].0, p[k].1))
    && (forall k :: 0 < k < |p| ==> p[k - 1].1 < p[k].0)
  }

  lemma RunsCons(s: string, ds: set<char>, from: nat, e: nat, q: seq<(nat, nat)>)
    requires IsRun(s, ds, from, e) && RunsFrom(s, ds, e, q)
    ensures RunsFrom(s, ds, from, [(from, e)] + q)
  {
    assert |q| > 0 ==> q[0].0 != e;
  }

  /** Every span is a maximal run, and consecutive spans do not touch. */
  lemma {:induction false} SpansAreRuns(s: string, ds: set<char>, from: nat)
    requires from <= |s|
    requires from == 0 || from == |s| || s[from - 1] in ds || s[from] in ds
    ensures RunsFrom(s, ds, from, Spans(s, ds, from))
    decreases |s| - from
  {
    if from < |s| {
      if s[from] in ds {
        SpansAreRuns(s, ds, from + 1);
      } else {
        var e := Find(s, ds, from);
        SpansAreRuns(s, ds, e);
        RunsCons(s, ds, from, e, Spans(s, ds, e));
      }
    }
  }

  /** No maximal run is missed by the spans. */
  lemma {:induction false} RunsAreSpans(s: string, ds: set<char>, from: nat, i: nat, j: nat)
    requires from <= i && IsRun(s, ds, i, j)
    requires from == 0 || s[from - 1] in ds || s[from] in ds
    ensures (i, j) in Spans(s, ds, from)
    decreases |s| - from
  {
    if s[from] in ds {
      RunsAreSpans(s, ds, from + 1, i, j);
    } else if i > from {
      var e := Find(s, ds, from);
      assert e <= i - 1;
      RunsAreSpans(s, ds, e, i, j);
    } else {
      assert Find(s, ds, from) == j;
    }
  }

  /** The texts at the given places. */
  ghost predicate Places(fields: seq<string>, s: string, p: seq<(nat, nat)>) {
    && |fields| == |p|
    && forall k :: 0 <= k < |p| ==> p[k].0 <= p[k].1 <= |s| && fields[k] == s[p[k].0..p[k].1]
  }

  lemma PlacesCons(f: seq<string>, s: string, p: seq<(nat, nat)>, i: nat, j: nat)
    requires Places(f, s, p) && i <= j <= |s|
    ensures Places([s[i..j]] + f, s, [(i, j)] + p)
  {
  }

  /** Field number k is the text of span number k. */
  lemma {:induction false} FieldsAtSpans(s: string, ds: set<char>, from: nat)
    requires from <= |s|
    ensures Places(Fields(s[from..], ds), s, Spans(s, ds, from))
    decreases |s| - from
  {
    hide Places;
    if from == |s| {
      PlacesNone(s);
    } else if s[from] in ds {
      assert s[from..][1..] == s[from + 1..];
      FieldsAtSpans(s, ds, from + 1);
    } else {
      var e := Find(s, ds, from);
      FindInSuffix(s, ds, from, from);
      SliceOfSuffix(s, from, from, e);
      SliceOfSuffix(s, from, e, e);
      FieldsAtSpans(s, ds, e);
      PlacesCons(Fields(s[e..], ds), s, Spans(s, ds, e), from, e);
    }
  }

  lemma PlacesNone(s: string)
    ensures Places([], s, [])
  {
  }

  /** The fields are exactly the maximal separator-free runs, left to right:
      each is a run, no run is missed, and consecutive ones do not touch. */
  lemma FieldsAreTheRuns(s: string, ds: set<char>)
    ensures var p := Spans(s, ds, 0);
            && |p| == |Fields(s, ds)|
            && (forall k :: 0 <= k < |p| ==>
                  IsRun(s, ds, p[k].0, p[k].1) && Fields(s, ds)[k] == s[p[k].0..p[k].1])
            && (forall k :: 0 < k < |p| ==> p[k - 1].1 < p[k].0)
            && (forall i: nat, j: nat :: IsRun(s, ds, i, j) ==> (i, j) in p)
  {
    assert s[0..] == s;
    SpansAreRuns(s, ds, 0);
    FieldsAtSpans(s, ds, 0);
    forall i: nat, j: nat | IsRun(s, ds, i, j) ensures (i, j) in Spans(s, ds, 0) {
      RunsAreSpans(s, ds, 0, i, j);
    }
  }
}
