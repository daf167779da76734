/** Path strings: components between slashes, however many slashes there are. */
module Paths {
  import opened Lru

  /** The components of a path string: its maximal runs of characters other than '/'. */
  function Comps(s: string): Path
    ensures s != "" && s[|s| - 1] != '/' ==> Comps(s) != []
  {
    if s == "" then []
    else
      var rest, c := s[..|s| - 1], s[|s| - 1];
      if c == '/' then Comps(rest)
      else if rest == "" || rest[|rest| - 1] == '/' then Comps(rest) + [[c]]
      else Comps(rest)[..|Comps(rest)| - 1] + [Comps(rest)[|Comps(rest)| - 1] + [c]]
  }

  /** A path string that begins at the root. */
  predicate Absolute(s: string) {
    s != "" && s[0] == '/'
  }

  function SkipSlashes(s: string, i: nat): (j: nat)
    requires i <= |s|
    ensures i <= j <= |s|
    ensures forall k :: i <= k < j ==> s[k] == '/'
    ensures j < |s| ==> s[j] != '/'
    decreases |s| - i
  {
    if i < |s| && s[i] == '/' then SkipSlashes(s, i + 1) else i
  }

  /** The next slash from i on, or the end of the string. */
  function NextSlash(s: string, i: nat): (j: nat)
    requires i <= |s|
    ensures i <= j <= |s|
    ensures forall k :: i <= k < j ==> s[k] != '/'
    ensures j < |s| ==> s[j] == '/'
    decreases |s| - i
  {
    if i < |s| && s[i] != '/' then NextSlash(s, i + 1) else i
  }

  /** Slashes add no component. */
  lemma {:induction false} CompsOfSlashes(s: string, i: nat, j: nat)
    requires i <= j <= |s| && forall k :: i <= k < j ==> s[k] == '/'
    ensures Comps(s[..j]) == Comps(s[..i])
    decreases j - i
  {
    if i < j {
      CompsOfSlashes(s, i, j - 1);
      assert s[..j][..j - 1] == s[..j - 1];
    }
  }

  /** The first character after a slash starts a component, the next ones extend it. */
  lemma CompsOfCharacter(s: string, j: nat)
    requires j < |s| && s[j] != '/'
    ensures j == 0 || s[j - 1] == '/' ==> Comps(s[..j + 1]) == Comps(s[..j]) + [[s[j]]]
    ensures j > 0 && s[j - 1] != '/' ==> var c := Comps(s[..j]);
      c != [] && Comps(s[..j + 1]) == c[..|c| - 1] + [c[|c| - 1] + [s[j]]]
  {
    assert s[..j + 1][..j] == s[..j];
  }

  /** A run of other characters after a slash adds one component. */
  lemma {:induction false} CompsOfRun(s: string, i: nat, j: nat)
    requires i < j <= |s| && (i == 0 || s[i - 1] == '/') && forall k :: i <= k < j ==> s[k] != '/'
    ensures Comps(s[..j]) == Comps(s[..i]) + [s[i..j]]
    decreases j - i
  {
    hide Comps;
    CompsOfCharacter(s, j - 1);
    if i + 1 == j {
      assert s[i..j] == [s[i]];
    } else {
      CompsOfRun(s, i, j - 1);
      assert s[i..j] == s[i..j - 1] + [s[j - 1]];
    }
  }

  /** Up to a slash a path string has the first components of the whole. */
  lemma {:induction false} CompsOfPrefix(s: string, j: nat)
    requires j <= |s| && (j == |s| || s[j] == '/')
    ensures |Comps(s[..j])| <= |Comps(s)| && Comps(s)[..|Comps(s[..j])|] == Comps(s[..j])
    decreases |s|
  {
    if j == |s| {
      assert s[..j] == s;
    } else {
      assert s[..|s|] == s;
      CompsOfTail(s, j, |s|);
    }
  }

  lemma {:induction false} CompsOfTail(s: string, j: nat, e: nat)
    requires j < e <= |s| && s[j] == '/'
    ensures |Comps(s[..j])| <= |Comps(s[..e])| && Comps(s[..e])[..|Comps(s[..j])|] == Comps(s[..j])
    ensures s[e - 1] != '/' ==> |Comps(s[..e])| > |Comps(s[..j])|
    decreases e - j
  {
    var u := s[..e];
    assert u[..|u| - 1] == s[..e - 1];
    if e - 1 > j {
      CompsOfTail(s, j, e - 1);
    }
  }

  predicate LegalName(n: Name) {
    n != "" && '/' !in n
  }

  predicate AllLegal(p: Path) {
    forall k :: 0 <= k < |p| ==> LegalName(p[k])
  }

  /** The path string with one slash before each component. */
  function Joined(p: Path): string {
    if p == [] then "" else Joined(p[..|p| - 1]) + "/" + p[|p| - 1]
  }

  /** Components are legal names, and putting slashes between legal names is undone by taking components. */
  lemma {:induction false} CompsLegal(s: string)
    ensures AllLegal(Comps(s))
  {
    if s != "" {
      CompsLegal(s[..|s| - 1]);
    }
  }

  lemma CompsOfNothing()
    ensures Comps("") == []
  {
  }

  lemma {:induction false} CompsOfJoined(p: Path)
    requires AllLegal(p)
    ensures Comps(Joined(p)) == p
  {
    hide Comps;
    if p == [] {
      CompsOfNothing();
    } else {
      var front, leaf := Joined(p[..|p| - 1]), p[|p| - 1];
      var s := Joined(p);
      CompsOfJoined(p[..|p| - 1]);
      assert s[..|front|] == front && s[|front| + 1..] == leaf;
      CompsOfSlashes(s, |front|, |front| + 1);
      CompsOfRun(s, |front| + 1, |s|);
      assert s[..|s|] == s && s[|front| + 1..|s|] == leaf;
    }
  }
}
