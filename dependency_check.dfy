/** The missing-dependency filter shared by every launcher variant
    (`_check_to_install` and the `to_install` comprehension): a requirement is
    taken to be installed when its name followed by one space occurs anywhere
    in the text that `pip list` printed. */
module DependencyCheck {
  import opened Seqs
  import opened PyStr

  /** `package + ' ' in installed` */
  predicate IsListed(installed: string, package: string)
  {
    Contains(installed, package + " ")
  }

  /** `[package for package in requirements if not package + ' ' in installed]`:
      the requirements that are not listed, in their original order and with
      their original multiplicity; a requirement is dropped only if listed. */
  function CheckToInstall(requirements: seq<string>, installed: string): (missing: seq<string>)
    ensures IsSubsequence(missing, requirements)
    ensures forall p :: p in missing ==> p in requirements && !IsListed(installed, p)
    ensures forall i :: 0 <= i < |requirements| && !IsListed(installed, requirements[i]) ==> requirements[i] in missing
  {
    var keep := (p: string) => !IsListed(installed, p);
    FilterIsSubsequence(requirements, keep);
    FilterKeepsAll(requirements, keep);
    Filter(requirements, keep)
  }

  /** Each unlisted requirement is kept as often as it is required, and a
      listed one not at all. */
  lemma CheckToInstallCounts(requirements: seq<string>, installed: string, p: string)
    ensures multiset(CheckToInstall(requirements, installed))[p] ==
      if IsListed(installed, p) then 0 else multiset(requirements)[p]
  {
    FilterCount(requirements, (q: string) => !IsListed(installed, q), p);
  }

  /** Nothing is missing exactly when every requirement is listed. */
  lemma NothingMissingIff(requirements: seq<string>, installed: string)
    ensures CheckToInstall(requirements, installed) == [] <==>
            forall i :: 0 <= i < |requirements| ==> IsListed(installed, requirements[i])
  {
    var missing := CheckToInstall(requirements, installed);
    if missing != [] {
      assert missing[0] in missing;
    }
  }

  /** A string that lacks the first character of `needle` does not contain it. */
  lemma {:induction false} AbsentFirstChar(hay: string, needle: string)
    requires |needle| > 0 && forall i :: 0 <= i < |hay| ==> hay[i] != needle[0]
    ensures !Contains(hay, needle)
    decreases |hay|
  {
    if |hay| > 0 {
      if |needle| <= |hay| {
        assert hay[..|needle|][0] == hay[0];
      }
      AbsentFirstChar(hay[1..], needle);
    }
  }

  /** With `alpha` listed and `beta` not, only `beta` is missing. */
  lemma {:induction false} AlphaBeta(installed: string)
    requires IsListed(installed, "alpha") && !IsListed(installed, "beta")
    ensures CheckToInstall(["alpha", "beta"], installed) == ["beta"]
  {
    var keep := (p: string) => !IsListed(installed, p);
    assert ["alpha", "beta"][1..] == ["beta"];
    assert Filter(["beta"], keep) == ["beta"] + Filter([], keep);
  }

  /** The worked example: `alpha 1.0` and `gamma 2.0` are listed, so of
      `alpha` and `beta` only `beta` is missing. */
  lemma AlphaBetaExample(installed: string)
    requires installed == "alpha 1.0\ngamma 2.0\n"
    ensures CheckToInstall(["alpha", "beta"], installed) == ["beta"]
  {
    assert installed[..6] == "alpha ";
    AbsentFirstChar(installed, "beta ");
    assert "alpha" + " " == "alpha " && "beta" + " " == "beta ";
    AlphaBeta(installed);
  }

  /** The test is a substring heuristic: a listed package whose name merely ends
      with a requirement's name hides that requirement from the missing list. */
  lemma SuffixNameHidesRequirement(installed: string)
    requires installed == "sly-ply 1.0\n"
    ensures CheckToInstall(["ply"], installed) == []
  {
    assert installed[4..8] == "ply ";
    OccursContains(installed, "ply ", 4);
    assert "ply" + " " == "ply ";
    NothingMissingIff(["ply"], installed);
  }
}
