/** The console installer (`installer.py`): a curses window that lists the packages
    to install, asks "Install packages? (y/n)", runs `pip install` and animates a
    spinner until pip exits. The terminal, the keyboard and the pip child are
    inputs: the keys the user presses (`keys`), the answers of the child's `poll()`
    (`polls`, true while it still runs) and whether starting the child fails. */
module Installer {
  import opened Seqs
  import opened PyStr
  import opened Requirements

  /** The curses calls that set the terminal up and restore it. */
  datatype CursesCall = InitScr | NoEcho | CBreak | Keypad(on: bool) | StartColor | NoCBreak | Echo | EndWin

  /** What the terminal and the operating system observe, in order. */
  datatype Event =
    | Curses(call: CursesCall)
    | Prompt(packages: string)        // the window with the wrapped package list
    | WrongInput                      // "Wrong input" and the question again
    | PipInstall(names: seq<string>)  // `pip install <names>` started
    | Frame(glyph: char)              // "Installing <glyph>"

  /** Exceptions that leave the installer. */
  datatype Fault =
    | IndexError          // `to_install[0]` on an empty argument list
    | MissingCreationFlag // `subprocess.CREATE_NO_WINDOW` exists only on Windows
    | SpawnFailed         // `pip` could not be started
    | KeyboardInterrupt   // Ctrl-C while waiting for a key
    | CursesError         // a curses call refused (no terminal, no colours)

  datatype Key = Press(name: string) | CtrlC

  /** `Waiting`: the inputs ran out while the installer was still waiting for a key
      or for pip, so it has not returned yet. */
  datatype Outcome = Exit(code: int) | Raised(fault: Fault) | Waiting

  /** What the window and the key loop do, as a value. `started` says whether pip
      was started (and so whether `__is_running` was replaced). */
  datatype Trace = Trace(outcome: Outcome, events: seq<Event>, phase: int, started: bool)

  // ---------------------------------------------------------------- wrapping

  /** Total length of the names of one line (`line_len` counts no separators). */
  function SumLen(names: seq<string>): nat
  {
    if names == [] then 0 else SumLen(names[..|names| - 1]) + |names[|names| - 1]|
  }

  /** The grouping after one more name: a name starts a new line when the
      current line's length plus its own reaches `w`, and is appended to
      that line otherwise. */
  function Next(g: seq<seq<string>>, n: string, w: int): seq<seq<string>>
    requires |g| > 0
  {
    if SumLen(g[|g| - 1]) + |n| >= w then g + [[n]]
    else g[..|g| - 1] + [g[|g| - 1] + [n]]
  }

  /** The names grouped into lines the way `__split_text` wraps them: a name
      starts a new line when the current line's length plus its own reaches
      `width`, and is appended after a space otherwise. */
  function Lines(names: seq<string>, width: int): (lines: seq<seq<string>>)
    requires |names| > 0
    ensures |lines| > 0 && forall k :: 0 <= k < |lines| ==> |lines[k]| > 0
    ensures lines[0][0] == names[0]
  {
    if |names| == 1 then [[names[0]]]
    else Next(Lines(names[..|names| - 1], width), names[|names| - 1], width)
  }

  /** The text drawn for a grouping: names of a line separated by one space,
      lines separated by one newline. */
  function Render(lines: seq<seq<string>>): string
  {
    Join(seq(|lines|, k requires 0 <= k < |lines| => Join(lines[k], " ")), "\n")
  }

  /** The text `__split_text(names, width)` returns. */
  function Wrapped(names: seq<string>, width: int): string
    requires |names| > 0
  {
    Render(Lines(names, width - 5))
  }

  /** `__split_text`: the loop over `to_install[1:]`. */
  method SplitText(names: seq<string>, width: int) returns (text: string)
    requires |names| > 0
    ensures text == Wrapped(names, width)
  {
    var w := width - 5;
    text := names[0];
    var lineLen := |names[0]|;
    var k := 1;
    ghost var g := Lines(names[..1], w);
    SplitStart(names, w);
    while k < |names|
      invariant 1 <= k <= |names|
      invariant g == Lines(names[..k], w)
      invariant text == Render(g) && lineLen == SumLen(g[|g| - 1])
    {
      var n := names[k];
      LinesSnoc(names, k, w);
      text, lineLen := AddName(g, text, lineLen, n, w);
      k := k + 1;
      g := Next(g, n, w);
    }
    assert names[..|names|] == names;
  }

  /** One iteration of the loop of `__split_text`: the name opens a new line
      when the current line's length plus its own reaches `w`, and follows
      the current line after a space otherwise. */
  method AddName(ghost g: seq<seq<string>>, text: string, lineLen: nat, n: string, w: int)
    returns (text': string, lineLen': nat)
    requires |g| > 0 && |g[|g| - 1]| > 0
    requires text == Render(g) && lineLen == SumLen(g[|g| - 1])
    ensures var g' := Next(g, n, w);
      text' == Render(g') && lineLen' == SumLen(g'[|g'| - 1])
  {
    StepRender(g, n, w);
    if lineLen + |n| >= w {
      text' := text + "\n" + n;
      lineLen' := |n|;
    } else {
      text' := text + " " + n;
      lineLen' := lineLen + |n|;
    }
  }

  /** Before the loop of `__split_text`: the first name alone. */
  lemma SplitStart(names: seq<string>, w: int)
    requires |names| > 0
    ensures var g := Lines(names[..1], w);
      Render(g) == names[0] && SumLen(g[|g| - 1]) == |names[0]|
  {
    assert names[..1] == [names[0]];
    assert Render([[names[0]]]) == names[0];
    assert SumLen([names[0]]) == |names[0]| by { assert [names[0]][..0] == []; }
  }

  /** `Lines` on one more name: the grouping of the names before it, with
      the name on a new line or appended to the last one. */
  lemma LinesSnoc(names: seq<string>, k: nat, w: int)
    requires 1 <= k < |names|
    ensures Lines(names[..k + 1], w) == Next(Lines(names[..k], w), names[k], w)
  {
    var m := names[..k + 1];
    assert m[..|m| - 1] == names[..k] && m[|m| - 1] == names[k];
    assert Lines(m, w) == Next(Lines(m[..|m| - 1], w), m[|m| - 1], w);
  }

  /** The text and the last line's length after one more name. */
  lemma StepRender(g: seq<seq<string>>, n: string, w: int)
    requires |g| > 0 && |g[|g| - 1]| > 0
    ensures var g' := Next(g, n, w);
      var len := SumLen(g[|g| - 1]);
      (len + |n| >= w ==> Render(g') == Render(g) + "\n" + n && SumLen(g'[|g'| - 1]) == |n|) &&
      (len + |n| < w ==> Render(g') == Render(g) + " " + n && SumLen(g'[|g'| - 1]) == len + |n|)
  {
    if SumLen(g[|g| - 1]) + |n| >= w {
      RenderNewLine(g, n);
      assert SumLen([n]) == |n| by { assert [n][..0] == []; }
    } else {
      RenderSameLine(g, n);
      assert (g[|g| - 1] + [n])[..|g[|g| - 1]|] == g[|g| - 1];
    }
  }

  lemma JoinSnoc(parts: seq<string>, sep: string, x: string)
    requires |parts| > 0
    ensures Join(parts + [x], sep) == Join(parts, sep) + sep + x
    decreases |parts|
  {
    if |parts| == 1 {
      assert (parts + [x])[1..] == [x];
    } else {
      assert (parts + [x])[1..] == parts[1..] + [x];
      JoinSnoc(parts[1..], sep, x);
    }
  }

  lemma RenderNewLine(g: seq<seq<string>>, n: string)
    requires |g| > 0
    ensures Render(g + [[n]]) == Render(g) + "\n" + n
  {
    var a := seq(|g|, k requires 0 <= k < |g| => Join(g[k], " "));
    var b := seq(|g| + 1, k requires 0 <= k < |g| + 1 => Join((g + [[n]])[k], " "));
    assert b == a + [n];
    JoinSnoc(a, "\n", n);
  }

  lemma RenderSameLine(g: seq<seq<string>>, n: string)
    requires |g| > 0 && |g[|g| - 1]| > 0
    ensures Render(g[..|g| - 1] + [g[|g| - 1] + [n]]) == Render(g) + " " + n
  {
    var last := g[|g| - 1];
    var h := g[..|g| - 1] + [last + [n]];
    var a := seq(|g|, k requires 0 <= k < |g| => Join(g[k], " "));
    var b := seq(|h|, k requires 0 <= k < |h| => Join(h[k], " "));
    JoinSnoc(last, " ", n);
    assert b == a[..|g| - 1] + [a[|g| - 1] + " " + n];
    if |g| == 1 {
      assert b == [a[0] + " " + n];
    } else {
      JoinSnoc(a[..|g| - 1], "\n", a[|g| - 1] + " " + n);
      JoinSnoc(a[..|g| - 1], "\n", a[|g| - 1]);
      assert a == a[..|g| - 1] + [a[|g| - 1]];
    }
  }

  /** The concatenation of the lines of a grouping. */
  function Flatten(lines: seq<seq<string>>): seq<string>
  {
    if lines == [] then [] else Flatten(lines[..|lines| - 1]) + lines[|lines| - 1]
  }

  lemma FlattenSnoc(g: seq<seq<string>>, x: seq<string>)
    ensures Flatten(g + [x]) == Flatten(g) + x
  {
    assert (g + [x])[..|g|] == g;
  }

  /** Appending a name to the last line appends it to the flattening. */
  lemma FlattenGrow(pre: seq<seq<string>>, last: seq<string>, n: string)
    ensures Flatten(pre + [last + [n]]) == Flatten(pre + [last]) + [n]
  {
    FlattenSnoc(pre, last);
    FlattenSnoc(pre, last + [n]);
    assert Flatten(pre) + (last + [n]) == (Flatten(pre) + last) + [n];
  }

  /** One more name adds exactly that name at the end of the flattening. */
  lemma FlattenNext(g: seq<seq<string>>, n: string, w: int)
    requires |g| > 0
    ensures Flatten(Next(g, n, w)) == Flatten(g) + [n]
  {
    if SumLen(g[|g| - 1]) + |n| >= w {
      assert Next(g, n, w) == g + [[n]];
      FlattenSnoc(g, [n]);
    } else {
      assert Next(g, n, w) == g[..|g| - 1] + [g[|g| - 1] + [n]];
      assert Flatten(g) == Flatten(g[..|g| - 1]) + g[|g| - 1];
      FlattenGrow(g[..|g| - 1], g[|g| - 1], n);
      FlattenSnoc(g[..|g| - 1], g[|g| - 1]);
    }
  }

  /** Wrapping neither drops, duplicates nor reorders a name. */
  lemma {:induction false} LinesFlatten(names: seq<string>, width: int)
    requires |names| > 0
    ensures Flatten(Lines(names, width)) == names
  {
    if |names| > 1 {
      var init := names[..|names| - 1];
      var n := names[|names| - 1];
      assert Lines(names, width) == Next(Lines(init, width), n, width);
      LinesFlatten(init, width);
      FlattenNext(Lines(init, width), n, width);
      assert init + [n] == names;
    } else {
      assert Flatten([[names[0]]]) == Flatten([]) + [names[0]];
    }
  }

  /** A line holding two or more names is shorter than the width: a name is only
      put after a space when it fits. */
  lemma {:induction false} LinesFit(names: seq<string>, width: int)
    requires |names| > 0
    ensures forall k :: 0 <= k < |Lines(names, width)| && |Lines(names, width)[k]| >= 2 ==>
      SumLen(Lines(names, width)[k]) < width
  {
    if |names| > 1 {
      var init := names[..|names| - 1];
      var g := Lines(init, width);
      var n := names[|names| - 1];
      LinesFit(init, width);
      if SumLen(g[|g| - 1]) + |n| < width {
        var last := g[|g| - 1] + [n];
        assert last[..|last| - 1] == g[|g| - 1];
      }
    }
  }

  /** The wrapping is greedy: every line but the last was ended because the
      first name of the next line would have reached the width. */
  lemma {:induction false} LinesGreedy(names: seq<string>, width: int)
    requires |names| > 0
    ensures forall k :: 0 <= k < |Lines(names, width)| - 1 ==>
      SumLen(Lines(names, width)[k]) + |Lines(names, width)[k + 1][0]| >= width
  {
    if |names| > 1 {
      var init := names[..|names| - 1];
      var g := Lines(init, width);
      var n := names[|names| - 1];
      LinesGreedy(init, width);
      if SumLen(g[|g| - 1]) + |n| < width {
        var h := g[..|g| - 1] + [g[|g| - 1] + [n]];
        assert forall k :: 0 <= k < |h| - 1 ==> h[k] == g[k];
        assert forall k :: 1 <= k < |h| ==> h[k][0] == g[k][0];
      }
    }
  }

  /** Reading the text back: splitting at newlines and then at spaces recovers
      the lines, when no name holds a space or a newline (pip names hold
      neither). */
  lemma RenderRoundTrip(lines: seq<seq<string>>)
    requires |lines| > 0 && forall k :: 0 <= k < |lines| ==> |lines[k]| > 0
    requires forall k, n :: 0 <= k < |lines| && n in lines[k] ==> ' ' !in n && '\n' !in n
    ensures |SplitOn(Render(lines), '\n')| == |lines|
    ensures forall k :: 0 <= k < |lines| ==> SplitOn(SplitOn(Render(lines), '\n')[k], ' ') == lines[k]
  {
    var rows := seq(|lines|, k requires 0 <= k < |lines| => Join(lines[k], " "));
    forall r | r in rows ensures '\n' !in r {
      var k :| 0 <= k < |lines| && rows[k] == r;
      JoinFree(lines[k], " ", '\n');
    }
    SplitJoin(rows, '\n');
    forall k | 0 <= k < |lines| ensures SplitOn(rows[k], ' ') == lines[k] {
      SplitJoin(lines[k], ' ');
    }
  }

  /** A join of pieces and a separator without `c` holds no `c`. */
  lemma JoinFree(parts: seq<string>, sep: string, c: char)
    requires c !in sep && forall n :: n in parts ==> c !in n
    ensures c !in Join(parts, sep)
    decreases |parts|
  {
    if |parts| > 1 {
      JoinFree(parts[1..], sep, c);
    }
  }

  // ---------------------------------------------------------------- spinner

  /** `__progress`'s update of `__pg_status`. */
  function NextPhase(phase: int): (next: int)
    requires 0 <= phase <= 3
    ensures 0 <= next <= 3 && next == (phase + 1) % 4
  {
    if phase == 3 then 0 else phase + 1
  }

  /** `('\\', '|', '/', '-')[phase]` */
  function Glyph(phase: int): char
    requires 0 <= phase <= 3
  {
    "\\|/-"[phase]
  }

  /** The frames `n` consecutive calls of `__progress` draw from `phase`. */
  function Frames(phase: int, n: nat): (frames: seq<Event>)
    requires 0 <= phase <= 3
    ensures |frames| == n
    decreases n
  {
    if n == 0 then [] else [Frame(Glyph(NextPhase(phase)))] + Frames(NextPhase(phase), n - 1)
  }

  /** The spinner cycles with period four: the i-th frame (from 0) drawn from
      `phase` shows the glyph of phase `phase + i + 1` modulo 4. From a fresh
      installer (phase 0) the frames are `|`, `/`, `-`, `\`, `|`, ... */
  lemma {:induction false} FramesCycle(phase: int, n: nat)
    requires 0 <= phase <= 3
    decreases n
    ensures forall i :: 0 <= i < n ==> Frames(phase, n)[i] == Frame(Glyph((phase + i + 1) % 4))
  {
    if n > 0 {
      FramesCycle(NextPhase(phase), n - 1);
      forall i | 1 <= i < n ensures Frames(phase, n)[i] == Frame(Glyph((phase + i + 1) % 4)) {
        assert Frames(phase, n)[i] == Frames(NextPhase(phase), n - 1)[i - 1];
        assert (NextPhase(phase) + (i - 1) + 1) % 4 == (phase + i + 1) % 4;
      }
    }
  }

  lemma FirstFramesFromFresh()
    ensures Frames(0, 4) == [Frame('|'), Frame('/'), Frame('-'), Frame('\\')]
  {
    FramesCycle(0, 4);
  }

  /** Leading `True` answers of `poll() is None`: how many frames are drawn. */
  function LeadingRunning(polls: seq<bool>): (n: nat)
    ensures n <= |polls|
    ensures forall i :: 0 <= i < n ==> polls[i]
    ensures n < |polls| ==> !polls[n]
  {
    if polls == [] || !polls[0] then 0 else 1 + LeadingRunning(polls[1..])
  }

  function Phases(phase: int, n: nat): (p: int)
    requires 0 <= phase <= 3
    ensures 0 <= p <= 3
    decreases n
  {
    if n == 0 then phase else Phases(NextPhase(phase), n - 1)
  }

  // ---------------------------------------------------------------- key loop

  /** A key the loop acts on; every other key is answered with "Wrong input". */
  predicate Decisive(key: Key)
  {
    key == CtrlC || key == Press("y") || key == Press("n")
  }

  /** After `y`: start pip, then spin while the child runs. */
  function AfterYes(names: seq<string>, polls: seq<bool>, spawn: Option<Fault>, phase: int): Trace
    requires 0 <= phase <= 3
  {
    if spawn.Some? then Trace(Raised(spawn.value), [], phase, false)
    else
      var n := LeadingRunning(polls);
      Trace(if n == |polls| then Waiting else Exit(0), [PipInstall(names)] + Frames(phase, n), Phases(phase, n), true)
  }

  /** What a decisive key does: Ctrl-C raises, `y` installs, `n` returns 1. */
  function Decide(names: seq<string>, key: Key, polls: seq<bool>, spawn: Option<Fault>, phase: int): Trace
    requires 0 <= phase <= 3 && Decisive(key)
  {
    if key == CtrlC then Trace(Raised(KeyboardInterrupt), [], phase, false)
    else if key == Press("y") then AfterYes(names, polls, spawn, phase)
    else Trace(Exit(1), [], phase, false)
  }

  /** The key loop of `__main`, from the first `getkey()`. */
  function KeyLoop(names: seq<string>, keys: seq<Key>, polls: seq<bool>, spawn: Option<Fault>, phase: int): Trace
    requires 0 <= phase <= 3
  {
    if keys == [] then Trace(Waiting, [], phase, false)
    else if Decisive(keys[0]) then Decide(names, keys[0], polls, spawn, phase)
    else
      var t := KeyLoop(names, keys[1..], polls, spawn, phase);
      Trace(t.outcome, [WrongInput] + t.events, t.phase, t.started)
  }

  /** `__main` as a whole. */
  function Session(names: seq<string>, width: int, keys: seq<Key>, polls: seq<bool>, spawn: Option<Fault>, phase: int): Trace
    requires 0 <= phase <= 3
  {
    if names == [] then Trace(Raised(IndexError), [], phase, false)
    else
      var t := KeyLoop(names, keys, polls, spawn, phase);
      Trace(t.outcome, [Prompt(Wrapped(names, width))] + t.events, t.phase, t.started)
  }

  /** Index of the first key the loop acts on. */
  function FirstDecisive(keys: seq<Key>): (d: nat)
    ensures d <= |keys|
    ensures forall i :: 0 <= i < d ==> !Decisive(keys[i])
    ensures d < |keys| ==> Decisive(keys[d])
  {
    if keys == [] || Decisive(keys[0]) then 0 else 1 + FirstDecisive(keys[1..])
  }

  function WrongInputs(n: nat): (r: seq<Event>)
    ensures |r| == n && forall e :: e in r ==> e == WrongInput
  {
    if n == 0 then [] else [WrongInput] + WrongInputs(n - 1)
  }

  /** The key loop answers every key before the first decisive one with
      "Wrong input" and then does what that key says. */
  lemma {:induction false} KeyLoopShape(names: seq<string>, keys: seq<Key>, polls: seq<bool>, spawn: Option<Fault>, phase: int)
    requires 0 <= phase <= 3
    ensures var d := FirstDecisive(keys);
      var t := KeyLoop(names, keys, polls, spawn, phase);
      var r := KeyLoop(names, keys[d..], polls, spawn, phase);
      t == Trace(r.outcome, WrongInputs(d) + r.events, r.phase, r.started)
  {
    if keys != [] && !Decisive(keys[0]) {
      KeyLoopShape(names, keys[1..], polls, spawn, phase);
      KeyLoopWrong(names, keys, polls, spawn, phase);
      FirstDecisiveWrong(keys);
      WrongInputStep(KeyLoop(names, keys, polls, spawn, phase), KeyLoop(names, keys[1..], polls, spawn, phase),
                     KeyLoop(names, keys[FirstDecisive(keys)..], polls, spawn, phase), FirstDecisive(keys[1..]));
    } else {
      KeyLoopDecided(names, keys, polls, spawn, phase);
    }
  }

  /** A key that is not decisive is answered with "Wrong input" and the loop
      goes on with the next key. */
  lemma KeyLoopWrong(names: seq<string>, keys: seq<Key>, polls: seq<bool>, spawn: Option<Fault>, phase: int)
    requires 0 <= phase <= 3
    requires keys != [] && !Decisive(keys[0])
    ensures var t1 := KeyLoop(names, keys[1..], polls, spawn, phase);
      KeyLoop(names, keys, polls, spawn, phase) == Trace(t1.outcome, [WrongInput] + t1.events, t1.phase, t1.started)
  {
  }

  /** Past a key that is not decisive, the first decisive key is one further
      on. */
  lemma FirstDecisiveWrong(keys: seq<Key>)
    requires keys != [] && !Decisive(keys[0])
    ensures FirstDecisive(keys) == FirstDecisive(keys[1..]) + 1
    ensures keys[1..][FirstDecisive(keys[1..])..] == keys[FirstDecisive(keys)..]
  {
  }

  /** The key loop when the first key is decisive (or there is none). */
  lemma KeyLoopDecided(names: seq<string>, keys: seq<Key>, polls: seq<bool>, spawn: Option<Fault>, phase: int)
    requires 0 <= phase <= 3
    requires keys == [] || Decisive(keys[0])
    ensures var t := KeyLoop(names, keys, polls, spawn, phase);
      FirstDecisive(keys) == 0 && t == Trace(t.outcome, WrongInputs(0) + t.events, t.phase, t.started)
  {
    assert WrongInputs(0) == [];
  }

  /** One more "Wrong input" in front of a trace that starts with `n` of them. */
  lemma WrongInputStep(t: Trace, t1: Trace, r: Trace, n: nat)
    requires t == Trace(t1.outcome, [WrongInput] + t1.events, t1.phase, t1.started)
    requires t1 == Trace(r.outcome, WrongInputs(n) + r.events, r.phase, r.started)
    ensures t == Trace(r.outcome, WrongInputs(n + 1) + r.events, r.phase, r.started)
  {
    assert WrongInputs(n + 1) + r.events == [WrongInput] + (WrongInputs(n) + r.events);
  }

  /** A log extended by `w` and then by the events of `r` holds the events of
      the trace that puts `w` in front of `r`. */
  lemma ComposeTrace(t: Trace, r: Trace, w: seq<Event>, log0: seq<Event>, mid: seq<Event>, log: seq<Event>)
    requires t == Trace(r.outcome, w + r.events, r.phase, r.started)
    requires mid == log0 + w && log == mid + r.events
    ensures log == log0 + t.events
  {
  }

  /** Answering `n` returns 1 without starting pip or drawing a frame. */
  lemma KeyNoDeclines(names: seq<string>, keys: seq<Key>, polls: seq<bool>, spawn: Option<Fault>, phase: int)
    requires 0 <= phase <= 3
    requires FirstDecisive(keys) < |keys| && keys[FirstDecisive(keys)] == Press("n")
    ensures var t := KeyLoop(names, keys, polls, spawn, phase);
      t.outcome == Exit(1) && !t.started && t.phase == phase &&
      forall e :: e in t.events ==> e == WrongInput
  {
    KeyLoopShape(names, keys, polls, spawn, phase);
  }

  /** Answering `y` starts pip exactly once, draws one frame per poll that says
      the child still runs, and returns 0 as soon as a poll says it exited,
      whatever pip's own exit status. */
  lemma KeyYesInstalls(names: seq<string>, keys: seq<Key>, polls: seq<bool>, phase: int)
    requires 0 <= phase <= 3
    requires FirstDecisive(keys) < |keys| && keys[FirstDecisive(keys)] == Press("y")
    ensures var t := KeyLoop(names, keys, polls, None, phase);
      var d := FirstDecisive(keys);
      var n := LeadingRunning(polls);
      t.started &&
      t.events == WrongInputs(d) + [PipInstall(names)] + Frames(phase, n) &&
      (t.outcome == Exit(0) <==> false in polls) &&
      (t.outcome == Waiting <==> false !in polls)
  {
    var d := FirstDecisive(keys);
    KeyLoopShape(names, keys, polls, None, phase);
    assert keys[d..][0] == keys[d];
    var r := KeyLoop(names, keys[d..], polls, None, phase);
    assert r == Decide(names, keys[d], polls, None, phase);
    AfterYesShape(names, polls, phase);
    assert WrongInputs(d) + r.events == WrongInputs(d) + [PipInstall(names)] + Frames(phase, LeadingRunning(polls));
  }

  /** After `y`: pip, one frame per running poll, and exit 0 once a poll
      says it exited. */
  lemma AfterYesShape(names: seq<string>, polls: seq<bool>, phase: int)
    requires 0 <= phase <= 3
    ensures var t := AfterYes(names, polls, None, phase);
      t.started && t.events == [PipInstall(names)] + Frames(phase, LeadingRunning(polls)) &&
      (t.outcome == Exit(0) <==> false in polls) && (t.outcome == Waiting <==> false !in polls)
  {
    var n := LeadingRunning(polls);
    if false in polls {
      var i :| 0 <= i < |polls| && !polls[i];
      assert n <= i;
    }
  }

  /** Ctrl-C as the first decisive key raises `KeyboardInterrupt` without
      starting pip or drawing a frame. */
  lemma KeyCtrlCInterrupts(names: seq<string>, keys: seq<Key>, polls: seq<bool>, spawn: Option<Fault>, phase: int)
    requires 0 <= phase <= 3
    requires FirstDecisive(keys) < |keys| && keys[FirstDecisive(keys)] == CtrlC
    ensures var t := KeyLoop(names, keys, polls, spawn, phase);
      t.outcome == Raised(KeyboardInterrupt) && !t.started && t.phase == phase &&
      forall e :: e in t.events ==> e == WrongInput
  {
    KeyLoopShape(names, keys, polls, spawn, phase);
  }

  /** The only exit statuses are 0 (after `y` and pip's exit) and 1 (after `n`). */
  lemma ExitCodes(names: seq<string>, keys: seq<Key>, polls: seq<bool>, spawn: Option<Fault>, phase: int)
    requires 0 <= phase <= 3
    ensures var t := KeyLoop(names, keys, polls, spawn, phase);
      var d := FirstDecisive(keys);
      (t.outcome == Exit(0) <==> d < |keys| && keys[d] == Press("y") && spawn.None? && false in polls) &&
      (t.outcome == Exit(1) <==> d < |keys| && keys[d] == Press("n")) &&
      (t.outcome.Exit? ==> t.outcome.code == 0 || t.outcome.code == 1)
  {
    KeyLoopShape(names, keys, polls, spawn, phase);
    var d := FirstDecisive(keys);
    if d < |keys| && keys[d] == Press("y") && spawn.None? {
      KeyYesInstalls(names, keys, polls, phase);
    }
  }

  /** The key loop itself never touches the terminal modes. */
  lemma {:induction false} KeyLoopNoCurses(names: seq<string>, keys: seq<Key>, polls: seq<bool>, spawn: Option<Fault>, phase: int)
    requires 0 <= phase <= 3
    ensures forall e :: e in KeyLoop(names, keys, polls, spawn, phase).events ==> !e.Curses?
  {
    if keys != [] && !Decisive(keys[0]) {
      KeyLoopNoCurses(names, keys[1..], polls, spawn, phase);
    } else if keys != [] && keys[0] == Press("y") && spawn.None? {
      FramesAreFrames(phase, LeadingRunning(polls));
    }
  }

  lemma {:induction false} FramesAreFrames(phase: int, n: nat)
    requires 0 <= phase <= 3
    decreases n
    ensures forall e :: e in Frames(phase, n) ==> e.Frame?
  {
    if n > 0 {
      FramesAreFrames(NextPhase(phase), n - 1);
    }
  }

  // ---------------------------------------------------------------- the class

  const SetupCalls: seq<Event> := [Curses(InitScr), Curses(NoEcho), Curses(CBreak), Curses(Keypad(true))]
  const RestoreCalls: seq<Event> := [Curses(NoCBreak), Curses(Keypad(false)), Curses(Echo), Curses(EndWin)]

  /** The terminal the installer runs in: whether `initscr` succeeds, whether
      `start_color` is accepted, and `width`, the number of columns of the
      centred sub-window, `int(w * 0.5)` for a screen `w` columns wide, which
      is the width the package list is wrapped to. */
  datatype Terminal = Terminal(initOk: bool, hasColors: bool, width: int)

  class Installer {
    /** `__to_install`: never reassigned. */
    var toInstall: seq<string>
    /** `__pg_status`: the spinner phase. */
    var phase: int
    /** Whether `__is_running` is the child's `poll() is None` (true) or `lambda: False`. */
    var running: bool
    /** Everything observed so far. */
    var log: seq<Event>

    ghost predicate Valid()
      reads this
    {
      0 <= phase <= 3
    }

    constructor(names: seq<string>)
      ensures Valid()
      ensures toInstall == names && phase == 0 && !running && log == []
    {
      toInstall := names;
      phase := 0;
      running := false;
      log := [];
    }

    /** `__progress` */
    method Progress()
      requires Valid()
      modifies this`phase, this`log
      ensures Valid()
      ensures phase == NextPhase(old(phase))
      ensures log == old(log) + [Frame(Glyph(phase))]
    {
      phase := NextPhase(phase);
      log := log + [Frame(Glyph(phase))];
    }

    /** `__install`: `spawn` is the exception starting the child raises, if any. */
    method Install(spawn: Option<Fault>) returns (fault: Option<Fault>)
      modifies this`running, this`log
      ensures fault == spawn
      ensures spawn.None? ==> running && log == old(log) + [PipInstall(toInstall)]
      ensures spawn.Some? ==> running == old(running) && log == old(log)
    {
      if spawn.Some? {
        return spawn;
      }
      log := log + [PipInstall(toInstall)];
      running := true;
      return None;
    }

    /** `__main`: draw the window, then answer keys. */
    method MainLoop(width: int, keys: seq<Key>, polls: seq<bool>, spawn: Option<Fault>) returns (out: Outcome)
      requires Valid()
      modifies this`phase, this`running, this`log
      ensures Valid()
      ensures var t := Session(old(toInstall), width, keys, polls, spawn, old(phase));
        out == t.outcome && log == old(log) + t.events && phase == t.phase &&
        running == (if t.started then out.Waiting? else old(running))
    {
      if |toInstall| == 0 {
        return Raised(IndexError);
      }
      var text := SplitText(toInstall, width);
      log := log + [Prompt(text)];
      out := AwaitKey(keys, polls, spawn);
    }

    /** The `while True` over the keys of `__main`. */
    method AwaitKey(keys: seq<Key>, polls: seq<bool>, spawn: Option<Fault>) returns (out: Outcome)
      requires Valid()
      modifies this`phase, this`running, this`log
      ensures Valid()
      ensures var t := KeyLoop(old(toInstall), keys, polls, spawn, old(phase));
        out == t.outcome && log == old(log) + t.events && phase == t.phase &&
        running == (if t.started then out.Waiting? else old(running))
    {
      var k := SkipWrong(keys);
      ghost var mid := log;
      KeyLoopShape(toInstall, keys, polls, spawn, phase);
      ghost var r := KeyLoop(toInstall, keys[k..], polls, spawn, phase);
      if k == |keys| {
        assert keys[k..] == [];
        out := Waiting;
      } else {
        assert keys[k..][0] == keys[k];
        out := Answer(keys[k], polls, spawn);
      }
      ComposeTrace(KeyLoop(old(toInstall), keys, polls, spawn, old(phase)), r, WrongInputs(k), old(log), mid, log);
    }

    /** Every key that is neither `y` nor `n` is answered with "Wrong input";
        returns the position of the first one that is. */
    method SkipWrong(keys: seq<Key>) returns (k: nat)
      modifies this`log
      ensures k == FirstDecisive(keys)
      ensures log == old(log) + WrongInputs(k)
    {
      k := 0;
      while k < |keys| && !Decisive(keys[k])
        invariant 0 <= k <= FirstDecisive(keys)
        invariant log == old(log) + WrongInputs(k)
      {
        log := log + [WrongInput];
        WrongInputsSnoc(k);
        k := k + 1;
      }
    }

    /** A key that is `y`, `n` or Ctrl-C. */
    method Answer(key: Key, polls: seq<bool>, spawn: Option<Fault>) returns (out: Outcome)
      requires Valid() && Decisive(key)
      modifies this`phase, this`running, this`log
      ensures Valid()
      ensures var t := Decide(old(toInstall), key, polls, spawn, old(phase));
        out == t.outcome && log == old(log) + t.events && phase == t.phase &&
        running == (if t.started then out.Waiting? else old(running))
    {
      if key == CtrlC {
        out := Raised(KeyboardInterrupt);
      } else if key == Press("y") {
        out := AnswerYes(polls, spawn);
      } else {
        out := Exit(1);
      }
    }

    /** The `key == 'y'` branch of `__main`. */
    method AnswerYes(polls: seq<bool>, spawn: Option<Fault>) returns (out: Outcome)
      requires Valid()
      modifies this`phase, this`running, this`log
      ensures Valid()
      ensures var t := AfterYes(old(toInstall), polls, spawn, old(phase));
        out == t.outcome && log == old(log) + t.events && phase == t.phase &&
        running == (if t.started then out.Waiting? else old(running))
    {
      var fault := Install(spawn);
      if fault.Some? {
        return Raised(fault.value);
      }
      var j := Spin(polls);
      if j == |polls| {
        return Waiting;
      }
      running := false;
      return Exit(0);
    }

    /** `while self.__is_running(): self.__progress()`: returns how many polls
        said the child still runs. */
    method Spin(polls: seq<bool>) returns (j: nat)
      requires Valid()
      modifies this`phase, this`log
      ensures Valid()
      ensures j == LeadingRunning(polls)
      ensures phase == Phases(old(phase), j) && log == old(log) + Frames(old(phase), j)
    {
      j := 0;
      while j < |polls| && polls[j]
        invariant 0 <= j <= LeadingRunning(polls) && Valid()
        invariant phase == Phases(old(phase), j)
        invariant log == old(log) + Frames(old(phase), j)
      {
        Progress();
        PhasesSnoc(old(phase), j);
        FramesSnoc(old(phase), j);
        j := j + 1;
      }
    }

    /** `run`: set the terminal up, run `__main`, and restore the terminal on the
        way out, whether `__main` returned or raised. When `initscr` itself
        fails, the first call of the `finally` block, `curses.nocbreak()`,
        raises a curses error of its own because curses was never
        initialised, so nothing is restored. */
    method Run(term: Terminal, keys: seq<Key>, polls: seq<bool>, spawn: Option<Fault>) returns (out: Outcome)
      requires Valid()
      modifies this`phase, this`running, this`log
      ensures Valid()
      ensures !term.initOk ==> out == Raised(CursesError) && log == old(log)
      ensures term.initOk && !term.hasColors ==> out == Raised(CursesError) && log == old(log) + SetupCalls + RestoreCalls
      ensures !(term.initOk && term.hasColors) ==> phase == old(phase) && running == old(running)
      ensures var t := Session(old(toInstall), term.width, keys, polls, spawn, old(phase));
        term.initOk && term.hasColors ==>
          out == t.outcome &&
          log == old(log) + SetupCalls + [Curses(StartColor)] + t.events + (if out.Waiting? then [] else RestoreCalls) &&
          phase == t.phase && running == (if t.started then out.Waiting? else old(running))
    {
      if !term.initOk {
        return Raised(CursesError);
      }
      log := log + SetupCalls;
      if !term.hasColors {
        out := Raised(CursesError);
      } else {
        log := log + [Curses(StartColor)];
        out := MainLoop(term.width, keys, polls, spawn);
      }
      if !out.Waiting? {
        log := log + RestoreCalls;
      }
    }
  }

  lemma {:induction false} WrongInputsSnoc(n: nat)
    ensures WrongInputs(n + 1) == WrongInputs(n) + [WrongInput]
  {
    if n > 0 {
      WrongInputsSnoc(n - 1);
    }
  }

  lemma {:induction false} FramesSnoc(phase: int, n: nat)
    requires 0 <= phase <= 3
    decreases n
    ensures Frames(phase, n + 1) == Frames(phase, n) + [Frame(Glyph(Phases(phase, n + 1)))]
  {
    if n > 0 {
      FramesSnoc(NextPhase(phase), n - 1);
    }
  }

  lemma {:induction false} PhasesSnoc(phase: int, n: nat)
    requires 0 <= phase <= 3
    decreases n
    ensures Phases(phase, n + 1) == NextPhase(Phases(phase, n))
  {
    if n > 0 {
      PhasesSnoc(NextPhase(phase), n - 1);
    }
  }

  /** `__main` never changes the terminal modes, so after `run` has set them up
      the only restoring calls are the four of its `finally` block, made once. */
  lemma SessionNoCurses(names: seq<string>, width: int, keys: seq<Key>, polls: seq<bool>, spawn: Option<Fault>, phase: int)
    requires 0 <= phase <= 3
    ensures forall e :: e in Session(names, width, keys, polls, spawn, phase).events ==> !e.Curses?
  {
    if names != [] {
      KeyLoopNoCurses(names, keys, polls, spawn, phase);
    }
  }

  // ---------------------------------------------------------------- the script

  /** `SRC_DIR + 'wincurses/' + module_name + '.cp' + str(major) + str(minor) + '-win' + ... + '.pyd'` */
  function CursesModulePath(srcDir: string, moduleName: string, major: nat, minor: nat, is64: bool): (path: string)
    ensures StartsWith(path, srcDir + "wincurses/" + moduleName + ".cp")
    ensures EndsWith(path, ".pyd")
    ensures is64 <==> EndsWith(path, "-win_amd64.pyd")
    ensures !is64 <==> EndsWith(path, "-win32.pyd")
    ensures var head := srcDir + "wincurses/" + moduleName + ".cp";
      var tail := if is64 then "-win_amd64.pyd" else "-win32.pyd";
      |head| + |tail| <= |path| && path[|head|..|path| - |tail|] == NatToString(major) + NatToString(minor)
  {
    var head := srcDir + "wincurses/" + moduleName + ".cp";
    var tail := if is64 then "-win_amd64.pyd" else "-win32.pyd";
    var digits := NatToString(major) + NatToString(minor);
    var path := head + digits + tail;
    assert path[..|head|] == head;
    assert path[|path| - |tail|..] == tail;
    assert path[|head|..|path| - |tail|] == digits;
    PydSuffixes(path);
    path
  }

  /** A path ends with at most one of the two platform suffixes, and either
      ends with `.pyd`. */
  lemma PydSuffixes(path: string)
    ensures EndsWith(path, "-win_amd64.pyd") ==> !EndsWith(path, "-win32.pyd") && EndsWith(path, ".pyd")
    ensures EndsWith(path, "-win32.pyd") ==> !EndsWith(path, "-win_amd64.pyd") && EndsWith(path, ".pyd")
  {
    if EndsWith(path, "-win_amd64.pyd") {
      assert path[|path| - 10] == "-win_amd64.pyd"[4] == '_';
      assert path[|path| - 4..] == "-win_amd64.pyd"[10..];
    }
    if EndsWith(path, "-win32.pyd") {
      assert path[|path| - 10] == "-win32.pyd"[0] == '-';
      assert path[|path| - 4..] == "-win32.pyd"[6..];
    }
  }

  /** The two extension modules loaded on Windows, in order. */
  function CursesModulePaths(srcDir: string, major: nat, minor: nat, is64: bool): (paths: seq<string>)
    ensures |paths| == 2
    ensures forall p :: p in paths ==> EndsWith(p, ".pyd")
    ensures StartsWith(paths[0], srcDir + "wincurses/" + "_curses" + ".cp")
    ensures StartsWith(paths[1], srcDir + "wincurses/" + "_curses_panel" + ".cp")
  {
    [CursesModulePath(srcDir, "_curses", major, minor, is64), CursesModulePath(srcDir, "_curses_panel", major, minor, is64)]
  }

  /** How the script's process ends: with an exit status, killed by `SIGINT`,
      or not yet (`StillRunning`, while it still waits). */
  datatype Status = Status(code: int) | Interrupted | StillRunning

  /** Whether the interpreter ends a process whose `KeyboardInterrupt` went
      uncaught by re-raising `SIGINT` on itself, as CPython does from 3.8 on;
      before that the exception gives status 1 like any other. */
  predicate KillsOnInterrupt(major: nat, minor: nat)
  {
    major > 3 || (major == 3 && minor >= 8)
  }

  /** `if __name__ == '__main__'`: the interpreter gate at the top of the script,
      then `sys.exit(Installer(sys.argv[1:]).run())`. `sys.exit()` without an
      argument and `sys.exit(0)` both give status 0; an uncaught exception gives
      1, except `KeyboardInterrupt` on an interpreter that re-raises `SIGINT`. */
  method Script(major: nat, minor: nat, argv: seq<string>, term: Terminal, keys: seq<Key>, polls: seq<bool>, spawn: Option<Fault>)
    returns (status: Status, observed: seq<Event>)
    ensures (major < 3 || (major == 3 && minor < 7)) ==> status == Status(0) && observed == []
    ensures !(major < 3 || (major == 3 && minor < 7)) && term.initOk && term.hasColors && argv == [] ==>
      status == Status(1) && observed == SetupCalls + [Curses(StartColor)] + RestoreCalls
    ensures !(major < 3 || (major == 3 && minor < 7)) ==>
      (status == Status(0) ==> term.initOk && term.hasColors && argv != [] && spawn.None? && false in polls && PipInstall(argv) in observed)
    ensures !(major < 3 || (major == 3 && minor < 7)) && term.initOk && term.hasColors && argv != [] &&
            FirstDecisive(keys) < |keys| && keys[FirstDecisive(keys)] == CtrlC ==>
      status == (if KillsOnInterrupt(major, minor) then Interrupted else Status(1)) && PipInstall(argv) !in observed
    ensures status == Interrupted ==> KillsOnInterrupt(major, minor)
  {
    if major < 3 || (major == 3 && minor < 7) {
      return Status(0), [];
    }
    var installer := new Installer(argv);
    var out := installer.Run(term, keys, polls, spawn);
    observed := installer.log;
    match out {
      case Exit(c) => status := Status(c);
      case Raised(f) => status := if f == KeyboardInterrupt && KillsOnInterrupt(major, minor) then Interrupted else Status(1);
      case Waiting => status := StillRunning;
    }
    if status == Status(0) {
      var t := Session(argv, term.width, keys, polls, spawn, 0);
      ExitCodes(argv, keys, polls, spawn, 0);
      KeyLoopShape(argv, keys, polls, spawn, 0);
      var d := FirstDecisive(keys);
      KeyYesInstalls(argv, keys, polls, 0);
      assert PipInstall(argv) in t.events;
    }
    if term.initOk && term.hasColors && argv != [] && FirstDecisive(keys) < |keys| && keys[FirstDecisive(keys)] == CtrlC {
      KeyCtrlCInterrupts(argv, keys, polls, spawn, 0);
      SessionNoCurses(argv, term.width, keys, polls, spawn, 0);
    }
  }
}
