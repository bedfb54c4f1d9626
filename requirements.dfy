/** Reading the requirement list: the text of `requirements.txt` becomes the
    ordered list of its non-empty lines. The launcher has two ways of doing it:
    `filter(None, text.splitlines())` and
    `[name for name in text.replace(LINESEP, '\n').split('\n') if name]`. */
module Requirements {
  import opened Seqs
  import opened PyStr

  /** The characters at which `str.splitlines` ends a line. */
  predicate IsLineBreak(c: char)
  {
    || c == '\n' || c == '\r' || c == '\U{000B}' || c == '\U{000C}'
    || c == '\U{001C}' || c == '\U{001D}' || c == '\U{001E}'
    || c == '\U{0085}' || c == '\U{2028}' || c == '\U{2029}'
  }

  predicate NoLineBreak(s: string)
  {
    forall i :: 0 <= i < |s| ==> !IsLineBreak(s[i])
  }

  predicate NonEmpty(s: string)
  {
    s != ""
  }

  /** Index of the first line break of `s`, or `|s|` if there is none. */
  function FirstBreak(s: string): (i: nat)
    ensures i <= |s|
    ensures NoLineBreak(s[..i])
    ensures i < |s| ==> IsLineBreak(s[i])
  {
    if s == [] then 0
    else if IsLineBreak(s[0]) then 0
    else 1 + FirstBreak(s[1..])
  }

  /** `s.splitlines()`: the pieces between line breaks, where `\r\n` counts as one
      break and a break at the very end does not start another (empty) line. */
  function SplitLines(s: string): seq<string>
    decreases |s|
  {
    if s == [] then []
    else
      var i := FirstBreak(s);
      if i == |s| then [s]
      else
        var width := if s[i] == '\r' && i + 1 < |s| && s[i + 1] == '\n' then 2 else 1;
        [s[..i]] + SplitLines(s[i + width..])
  }

  /** `list(filter(None, s.splitlines()))`: the requirement names of the text. */
  function RequirementLines(s: string): (names: seq<string>)
    ensures forall n :: n in names ==> NonEmpty(n) && NoLineBreak(n)
  {
    SplitLinesNoBreak(s);
    Filter(SplitLines(s), NonEmpty)
  }

  lemma {:induction false} SplitLinesNoBreak(s: string)
    ensures forall l :: l in SplitLines(s) ==> NoLineBreak(l)
    decreases |s|
  {
    if s != [] {
      var i := FirstBreak(s);
      if i < |s| {
        var width := if s[i] == '\r' && i + 1 < |s| && s[i + 1] == '\n' then 2 else 1;
        SplitLinesNoBreak(s[i + width..]);
      }
    }
  }

  /** An independent reading of the same text: the maximal runs of characters
      that are not line breaks, left to right. */
  function Runs(s: string): seq<string>
    decreases |s|
  {
    if s == [] then []
    else if IsLineBreak(s[0]) then Runs(s[1..])
    else
      var i := FirstBreak(s);
      [s[..i]] + Runs(s[i..])
  }

  /** Keeping the non-empty lines of `splitlines` is exactly taking the runs:
      which line ending the file uses makes no difference. */
  lemma {:induction false} RequirementLinesAreRuns(s: string)
    ensures RequirementLines(s) == Runs(s)
    decreases |s|
  {
    if s != [] {
      var i := FirstBreak(s);
      if i == |s| {
        assert Filter([s], NonEmpty) == [s] + Filter([], NonEmpty);
        assert s[..i] == s && s[i..] == [];
      } else {
        var width := if s[i] == '\r' && i + 1 < |s| && s[i + 1] == '\n' then 2 else 1;
        var rest := s[i + width..];
        RequirementLinesAreRuns(rest);
        assert SplitLines(s) == [s[..i]] + SplitLines(rest);
        FilterAppend([s[..i]], SplitLines(rest), NonEmpty);
        assert Filter([s[..i]], NonEmpty) == (if i > 0 then [s[..i]] else []) + Filter([], NonEmpty);
        // the runs after the break at i are the runs of rest
        assert Runs(s[i..]) == Runs(s[i + 1..]);
        if width == 2 {
          assert s[i + 1..][0] == '\n';
          assert s[i + 1..][1..] == rest;
        }
        assert Runs(s[i..]) == Runs(rest);
        if i == 0 {
          assert s[i..] == s;
        } else {
          assert Runs(s) == [s[..i]] + Runs(s[i..]);
        }
      }
    }
  }

  /** Runs of a break-free non-empty line followed by text that starts with a
      break (or nothing). */
  lemma RunsCons(l: string, t: string)
    requires NonEmpty(l) && NoLineBreak(l)
    requires t == [] || IsLineBreak(t[0])
    ensures Runs(l + t) == [l] + Runs(t)
  {
    FirstBreakCons(l, t);
    assert (l + t)[..|l|] == l && (l + t)[|l|..] == t;
  }

  lemma {:induction false} FirstBreakCons(l: string, t: string)
    requires NoLineBreak(l)
    requires t == [] || IsLineBreak(t[0])
    ensures FirstBreak(l + t) == |l|
    decreases |l|
  {
    if l != [] {
      assert (l + t)[1..] == l[1..] + t;
      FirstBreakCons(l[1..], t);
    } else {
      assert l + t == t;
    }
  }

  /** Leading line breaks contribute no runs. */
  lemma {:induction false} RunsSkipBreaks(b: string, t: string)
    requires forall i :: 0 <= i < |b| ==> IsLineBreak(b[i])
    ensures Runs(b + t) == Runs(t)
    decreases |b|
  {
    if b != [] {
      assert (b + t)[1..] == b[1..] + t;
      RunsSkipBreaks(b[1..], t);
    } else {
      assert b + t == t;
    }
  }

  /** Round trip: names written one per line, with any non-empty line ending
      made of break characters (`\n`, `\r\n`, `\r`, even blank lines between),
      are read back exactly, in order. */
  lemma {:induction false} RequirementLinesRoundTrip(names: seq<string>, ending: string)
    requires forall n :: n in names ==> NonEmpty(n) && NoLineBreak(n)
    requires |ending| > 0 && forall i :: 0 <= i < |ending| ==> IsLineBreak(ending[i])
    ensures RequirementLines(Join(names, ending)) == names
  {
    RequirementLinesAreRuns(Join(names, ending));
    RunsJoin(names, ending);
  }

  lemma {:induction false} RunsJoin(names: seq<string>, ending: string)
    requires forall n :: n in names ==> NonEmpty(n) && NoLineBreak(n)
    requires |ending| > 0 && forall i :: 0 <= i < |ending| ==> IsLineBreak(ending[i])
    ensures Runs(Join(names, ending)) == names
  {
    if |names| == 1 {
      RunsCons(names[0], []);
      assert names[0] + [] == names[0];
    } else if |names| > 1 {
      var rest := Join(names[1..], ending);
      RunsJoin(names[1..], ending);
      RunsSkipBreaks(ending, rest);
      assert names[0] + ending + rest == names[0] + (ending + rest);
      RunsCons(names[0], ending + rest);
    }
  }

  // ---------------------------------------------------------------------
  // The second reading: replace os.linesep by '\n', split at '\n'.

  /** The two values `os.linesep` takes. */
  datatype LineSep = LF | CRLF
  {
    function Text(): string
    {
      match this
      case LF => "\n"
      case CRLF => "\r\n"
    }
  }

  /** `s.replace(target, replacement)`: left-to-right, non-overlapping occurrences. */
  function ReplaceAll(s: string, target: string, replacement: string): string
    requires |target| > 0
    decreases |s|
  {
    if s == [] then ""
    else if StartsWith(s, target) then replacement + ReplaceAll(s[|target|..], target, replacement)
    else [s[0]] + ReplaceAll(s[1..], target, replacement)
  }

  /** Index of the first `c` in `s`, or `|s|`. */
  function Find(s: string, c: char): (i: nat)
    ensures i <= |s|
    ensures c !in s[..i]
    ensures i < |s| ==> s[i] == c
  {
    if s == [] then 0
    else if s[0] == c then 0
    else 1 + Find(s[1..], c)
  }

  /** `s.split(c)`: always one more piece than there are occurrences of `c`. */
  function SplitOn(s: string, c: char): seq<string>
    decreases |s|
  {
    var i := Find(s, c);
    if i == |s| then [s] else [s[..i]] + SplitOn(s[i + 1..], c)
  }

  /** `[name for name in s.replace(LINESEP, '\n').split('\n') if name]` */
  function LinesepLines(s: string, sep: LineSep): (names: seq<string>)
    ensures forall n :: n in names ==> NonEmpty(n) && '\n' !in n
  {
    SplitOnFree(ReplaceAll(s, sep.Text(), "\n"), '\n');
    Filter(SplitOn(ReplaceAll(s, sep.Text(), "\n"), '\n'), NonEmpty)
  }

  lemma {:induction false} SplitOnFree(s: string, c: char)
    ensures forall p :: p in SplitOn(s, c) ==> c !in p
    decreases |s|
  {
    var i := Find(s, c);
    if i < |s| {
      SplitOnFree(s[i + 1..], c);
    }
  }

  /** Replacing `\n` by itself changes nothing. */
  lemma {:induction false} ReplaceLFIdentity(s: string)
    ensures ReplaceAll(s, "\n", "\n") == s
    decreases |s|
  {
    if s != [] {
      ReplaceLFIdentity(s[1..]);
      if StartsWith(s, "\n") {
        assert s == "\n" + s[1..];
      } else {
        assert s == [s[0]] + s[1..];
      }
    }
  }

  /** A prefix without `\n` is copied unchanged by the `\r\n` replacement as long
      as what follows does not start with `\n`. */
  lemma {:induction false} ReplaceCRLFPrefix(l: string, t: string)
    requires '\n' !in l
    requires t == [] || t[0] != '\n'
    ensures ReplaceAll(l + t, "\r\n", "\n") == l + ReplaceAll(t, "\r\n", "\n")
    decreases |l|
  {
    if l != [] {
      var s := l + t;
      if |s| >= 2 {
        if |l| >= 2 {
          assert s[1] == l[1];
        } else {
          assert s[1] == t[0];
        }
        assert s[..2][1] != '\n';
      }
      assert !StartsWith(s, "\r\n");
      assert s[1..] == l[1..] + t;
      ReplaceCRLFPrefix(l[1..], t);
      assert l == [l[0]] + l[1..];
    } else {
      assert l + t == t;
    }
  }

  /** Lines joined with `os.linesep` become lines joined with `\n`. */
  lemma {:induction false} ReplaceJoin(names: seq<string>, sep: LineSep)
    requires forall n :: n in names ==> '\n' !in n
    ensures ReplaceAll(Join(names, sep.Text()), sep.Text(), "\n") == Join(names, "\n")
  {
    if sep == LF {
      ReplaceLFIdentity(Join(names, "\n"));
    } else if |names| == 1 {
      ReplaceCRLFPrefix(names[0], []);
      assert names[0] + [] == names[0];
    } else if |names| > 1 {
      var rest := Join(names[1..], "\r\n");
      ReplaceJoin(names[1..], sep);
      assert names[0] + "\r\n" + rest == names[0] + ("\r\n" + rest);
      ReplaceCRLFPrefix(names[0], "\r\n" + rest);
      assert ("\r\n" + rest)[..2] == "\r\n";
      assert ("\r\n" + rest)[2..] == rest;
      assert Join(names, "\n") == names[0] + ("\n" + Join(names[1..], "\n"));
    }
  }

  /** Splitting at `c` pieces that were joined with `c` gives the pieces back. */
  lemma {:induction false} SplitJoin(parts: seq<string>, c: char)
    requires |parts| > 0
    requires forall n :: n in parts ==> c !in n
    ensures SplitOn(Join(parts, [c]), c) == parts
  {
    var s := Join(parts, [c]);
    FindCons(parts[0], if |parts| == 1 then "" else [c] + Join(parts[1..], [c]), c);
    if |parts| == 1 {
      assert parts[0] + "" == parts[0];
    } else {
      assert s == parts[0] + ([c] + Join(parts[1..], [c]));
      assert s[..|parts[0]|] == parts[0];
      assert s[|parts[0]| + 1..] == Join(parts[1..], [c]);
      SplitJoin(parts[1..], c);
    }
  }

  lemma {:induction false} FindCons(l: string, t: string, c: char)
    requires c !in l
    requires t == [] || t[0] == c
    ensures Find(l + t, c) == |l|
    decreases |l|
  {
    if l != [] {
      assert (l + t)[1..] == l[1..] + t;
      FindCons(l[1..], t, c);
    } else {
      assert l + t == t;
    }
  }

  /** Round trip: non-empty names without `\n`, written one per line with the
      platform's `os.linesep`, are read back exactly, in order. */
  lemma LinesepRoundTrip(names: seq<string>, sep: LineSep)
    requires forall n :: n in names ==> NonEmpty(n) && '\n' !in n
    ensures LinesepLines(Join(names, sep.Text()), sep) == names
  {
    ReplaceJoin(names, sep);
    if names == [] {
      assert SplitOn("", '\n') == [""];
      assert Filter([""], NonEmpty) == [] + Filter([], NonEmpty);
    } else {
      SplitJoin(names, '\n');
      FilterAll(names, NonEmpty);
    }
  }

  /** Unlike `splitlines`, this reading honours only the platform's separator: on
      a platform where `os.linesep` is `\n`, a text with `\r\n` endings yields
      names that keep their trailing `\r`. Such a text reaches the reading
      from a zipapp member, whose bytes are decoded as they are; text-mode
      `open` has already turned a disk file's `\r\n` into `\n`. */
  lemma CRLFFileOnLFPlatform(s: string)
    requires s == "a\r\nb"
    ensures LinesepLines(s, LF) == ["a\r", "b"]
    ensures RequirementLines(s) == ["a", "b"]
  {
    LFReadingOfCRLF(s);
    SplitlinesReadingOfCRLF(s);
  }

  lemma LFReadingOfCRLF(s: string)
    requires s == "a\r\nb"
    ensures LinesepLines(s, LF) == ["a\r", "b"]
  {
    ReplaceLFIdentity(s);
    assert s == Join(["a\r", "b"], "\n");
    SplitJoin(["a\r", "b"], '\n');
    FilterAll(["a\r", "b"], NonEmpty);
  }

  lemma SplitlinesReadingOfCRLF(s: string)
    requires s == "a\r\nb"
    ensures RequirementLines(s) == ["a", "b"]
  {
    assert s == Join(["a", "b"], "\r\n");
    RequirementLinesRoundTrip(["a", "b"], "\r\n");
  }
}
