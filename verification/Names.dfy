/** The name of the universe of a pull request. */
module Names {
  import opened Strings

  /** makeUniverseName */
  function UniverseName(repo: string, number: int): string {
    repo + "-" + Itoa(number)
  }

  /** The position of the last dash, or the length of the string. */
  function LastDash(s: string): (i: nat)
    ensures i <= |s|
  {
    if s == "" then 0
    else if s[|s| - 1] == '-' then |s| - 1
    else
      var i := LastDash(s[..|s| - 1]);
      if i == |s| - 1 then |s| else i
  }

  lemma {:induction false} LastDashOf(head: string, tail: string)
    requires '-' !in tail
    ensures LastDash(head + "-" + tail) == |head|
  {
    var s := head + "-" + tail;
    if tail != "" {
      LastDashOf(head, tail[..|tail| - 1]);
      assert s[..|s| - 1] == head + "-" + tail[..|tail| - 1];
      assert s[|s| - 1] == tail[|tail| - 1];
    }
  }

  /** Reads a name back: the repository is what stands before the last dash, the number what follows it. */
  function ParseName(name: string): (string, int) {
    var i := LastDash(name);
    if i < |name| then (name[..i], Value(name[i + 1..])) else (name, 0)
  }

  /** Every name of a pull request reads back, whatever dashes and digits the repository's name contains. */
  lemma NameReadsBack(repo: string, number: nat)
    ensures ParseName(UniverseName(repo, number)) == (repo, number)
  {
    var name, digits := UniverseName(repo, number), Digits(number);
    LastDashOf(repo, digits);
    assert name[..|repo|] == repo && name[|repo| + 1..] == digits;
    ValueOfDigits(number);
  }

  /** Two pull requests share a universe exactly when repository name and number are the same;
      the owner of the repository plays no part. */
  lemma NamesAreInjective(r: string, m: nat, s: string, n: nat)
    ensures UniverseName(r, m) == UniverseName(s, n) <==> r == s && m == n
  {
    NameReadsBack(r, m);
    NameReadsBack(s, n);
  }

  /** Numbers must not be negative for that. */
  lemma NegativeNumbersCollide()
    ensures UniverseName("repo", -1) == UniverseName("repo-", 1)
  {
    assert "repo" + "-" + "-" == "repo-" + "-";
    assert UniverseName("repo", -1) == "repo" + "-" + "-" + Digits(1);
  }

  /** Dashes and digits of the repository stay as they are, and the number is written in decimal. */
  lemma NameExample()
    ensures UniverseName("shop-2", 305) == "shop-2-305"
  {
    assert Digits(305) == Digits(30) + "5" && Digits(30) == Digits(3) + "0" && Digits(3) == "3";
  }
}
