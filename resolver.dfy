/** `handle_duplicates`: the destination name chosen for a file under the
    three duplicate policies. */
module Resolver {
  import opened Names

  datatype Policy = Skip | Replace | Rename

  /** The name `f"{base}({k}){ext}"` tried by the rename policy. */
  function Candidate(base: string, k: nat, ext: string): (r: string)
    ensures |r| == |base| + |NatToString(k)| + 2 + |ext|
  {
    base + "(" + NatToString(k) + ")" + ext
  }

  /** A candidate name keeps the file's stem and extension, and holds the
      counter's decimal digits in parentheses between them. */
  lemma CandidateParts(base: string, k: nat, ext: string)
    ensures var r, digits := Candidate(base, k, ext), NatToString(k);
      && r[..|base|] == base && r[|base|] == '('
      && r[|base| + 1..|base| + 1 + |digits|] == digits
      && r[|r| - |ext| - 1] == ')' && r[|r| - |ext|..] == ext
  {
  }

  /** Different counters always give different candidate names. */
  lemma CandidateInjective(base: string, ext: string, j: nat, k: nat)
    requires Candidate(base, j, ext) == Candidate(base, k, ext)
    ensures j == k
  {
    var sj, sk := NatToString(j), NatToString(k);
    var cj, ck := Candidate(base, j, ext), Candidate(base, k, ext);
    assert |sj| == |sk|;
    assert cj[|base| + 1..|base| + 1 + |sj|] == sj;
    assert ck[|base| + 1..|base| + 1 + |sk|] == sk;
    NatToStringInjective(j, k);
  }

  function CandidatesBelow(base: string, ext: string, k: nat): set<string> {
    set j | 1 <= j < k :: Candidate(base, j, ext)
  }

  lemma CandidatesBelowStep(base: string, ext: string, k: nat)
    requires k >= 1
    ensures CandidatesBelow(base, ext, k + 1) == CandidatesBelow(base, ext, k) + {Candidate(base, k, ext)}
  {
  }

  /** The counters 1 .. k-1 give k-1 distinct names. */
  lemma {:induction false} CandidatesBelowCount(base: string, ext: string, k: nat)
    requires k >= 1
    ensures |CandidatesBelow(base, ext, k)| == k - 1
  {
    if k == 1 {
      assert CandidatesBelow(base, ext, 1) == {};
    } else {
      CandidatesBelowCount(base, ext, k - 1);
      CandidatesBelowStep(base, ext, k - 1);
      var c := Candidate(base, k - 1, ext);
      if c in CandidatesBelow(base, ext, k - 1) {
        var j :| 1 <= j < k - 1 && Candidate(base, j, ext) == c;
        CandidateInjective(base, ext, j, k - 1);
      }
    }
  }

  /** Every candidate below `k` is taken. */
  ghost predicate AllTaken(existing: set<string>, base: string, ext: string, k: nat) {
    forall j :: 1 <= j < k ==> Candidate(base, j, ext) in existing
  }

  /** A finite folder cannot hold more candidate names than it has files. */
  lemma TakenBound(existing: set<string>, base: string, ext: string, k: nat)
    requires k >= 1 && AllTaken(existing, base, ext, k)
    ensures k - 1 <= |existing|
  {
    CandidatesBelowCount(base, ext, k);
    var below := CandidatesBelow(base, ext, k);
    assert below <= existing;
    assert existing == below + (existing - below);
  }

  /** `k` is the counter the rename loop stops at: free, all below it taken. */
  ghost predicate IsLeastFree(existing: set<string>, base: string, ext: string, k: nat) {
    k >= 1 && Candidate(base, k, ext) !in existing && AllTaken(existing, base, ext, k)
  }

  /** The least free counter from `k` on. */
  function LeastFree(existing: set<string>, base: string, ext: string, k: nat): (r: nat)
    requires k >= 1 && AllTaken(existing, base, ext, k)
    ensures r >= k && IsLeastFree(existing, base, ext, r)
    decreases |existing| + 1 - k
  {
    if Candidate(base, k, ext) !in existing then k
    else
      TakenBound(existing, base, ext, k + 1);
      LeastFree(existing, base, ext, k + 1)
  }

  /** The stopping counter of the rename loop is determined by the folder. */
  lemma LeastFreeUnique(existing: set<string>, base: string, ext: string, j: nat, k: nat)
    requires IsLeastFree(existing, base, ext, j) && IsLeastFree(existing, base, ext, k)
    ensures j == k
  {
  }

  /** The name `handle_duplicates` returns for `file` in a folder holding
      `existing`: the file's own name when it is free or the policy is Skip
      or Replace, and the first free `base(k)ext` under Rename. */
  function ResolveName(p: Policy, existing: set<string>, file: string): (r: string)
    ensures file !in existing ==> r == file
    ensures (p.Skip? || p.Replace?) ==> r == file
    ensures p.Rename? && file in existing ==> r !in existing
    ensures p.Rename? && file in existing ==>
      exists k :: IsLeastFree(existing, SplitExt(file).0, SplitExt(file).1, k) &&
        r == Candidate(SplitExt(file).0, k, SplitExt(file).1)
  {
    if file !in existing || !p.Rename? then file
    else
      var (base, ext) := SplitExt(file);
      Candidate(base, LeastFree(existing, base, ext, 1), ext)
  }

  /** Worked case: with `a.pdf` and `a(1).pdf` present, Rename picks `a(2).pdf`. */
  lemma RenameSkipsTakenCandidates(existing: set<string>)
    requires existing == {"a.pdf", "a(1).pdf"}
    ensures ResolveName(Rename, existing, "a.pdf") == "a(2).pdf"
  {
    assert "a.pdf" == "a" + ".pdf" && "a"[0] != '.';
    SplitExtOf("a", ".pdf");
    assert NatToString(1) == "1" && NatToString(2) == "2";
    assert Candidate("a", 1, ".pdf") == "a(1).pdf";
    assert Candidate("a", 2, ".pdf") == "a(2).pdf";
    var r := ResolveName(Rename, existing, "a.pdf");
    var k :| IsLeastFree(existing, "a", ".pdf", k) && r == Candidate("a", k, ".pdf");
    assert IsLeastFree(existing, "a", ".pdf", 2);
    LeastFreeUnique(existing, "a", ".pdf", k, 2);
  }

  /** The probing loop of the rename policy (backend.py:70-77): tries
      `base(1)ext`, `base(2)ext`, ... until a name is free. */
  method ProbeRename(existing: set<string>, file: string) returns (name: string, counter: nat)
    ensures IsLeastFree(existing, SplitExt(file).0, SplitExt(file).1, counter)
    ensures name == Candidate(SplitExt(file).0, counter, SplitExt(file).1)
    ensures name !in existing
    ensures file in existing ==> name == ResolveName(Rename, existing, file)
  {
    var (base, ext) := SplitExt(file);
    counter := 1;
    name := Candidate(base, counter, ext);
    while name in existing
      invariant counter >= 1 && name == Candidate(base, counter, ext)
      invariant AllTaken(existing, base, ext, counter)
      decreases |existing| + 1 - counter
    {
      TakenBound(existing, base, ext, counter + 1);
      counter := counter + 1;
      name := Candidate(base, counter, ext);
    }
    if file in existing {
      ghost var k :| IsLeastFree(existing, base, ext, k) && ResolveName(Rename, existing, file) == Candidate(base, k, ext);
      LeastFreeUnique(existing, base, ext, k, counter);
    }
  }
}
