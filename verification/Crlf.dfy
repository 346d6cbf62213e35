/** `normalize_crlf` of rdp_clipboard.rs: three replacement passes. */
module Crlf {

  /** `str::replace`: occurrences are found from the left and do not overlap. */
  function Replace(s: string, pattern: string, instead: string): string
    requires pattern != ""
    decreases |s|
  {
    if |s| < |pattern| then s
    else if s[..|pattern|] == pattern then instead + Replace(s[|pattern|..], pattern, instead)
    else [s[0]] + Replace(s[1..], pattern, instead)
  }

  function Normalize(text: string): string
  {
    Replace(Replace(Replace(text, "\r\n", "\n"), "\r", "\n"), "\n", "\r\n")
  }

  // ----- lines -----

  predicate IsBreak(c: char) { c == '\r' || c == '\n' }

  /** How many characters the line break at the start of `s` takes; zero when there is none. */
  function BreakLength(s: string): (n: nat)
    ensures n <= |s| && n <= 2
  {
    if |s| >= 2 && s[0] == '\r' && s[1] == '\n' then 2
    else if |s| >= 1 && IsBreak(s[0]) then 1
    else 0
  }

  /** The lines of a text; CR LF, CR and LF each end one. */
  function Lines(s: string): (r: seq<string>)
    ensures r != []
    decreases |s|
  {
    if s == "" then [""]
    else
      var n := BreakLength(s);
      if n > 0 then [""] + Lines(s[n..])
      else
        var rest := Lines(s[1..]);
        [[s[0]] + rest[0]] + rest[1..]
  }

  function Join(lines: seq<string>): string
    requires lines != []
  {
    if |lines| == 1 then lines[0] else lines[0] + "\r\n" + Join(lines[1..])
  }

  predicate NoBreaks(s: string) { forall i :: 0 <= i < |s| ==> !IsBreak(s[i]) }

  // ----- the passes, one character at a time -----

  lemma ReplaceHit(pattern: string, rest: string, instead: string)
    requires pattern != ""
    ensures Replace(pattern + rest, pattern, instead) == instead + Replace(rest, pattern, instead)
  {
    assert (pattern + rest)[..|pattern|] == pattern && (pattern + rest)[|pattern|..] == rest;
  }

  lemma ReplaceMiss(c: char, rest: string, pattern: string, instead: string)
    requires pattern != "" && (pattern[0] != c || (|pattern| > 1 && (rest == "" || rest[0] != pattern[1])))
    ensures Replace([c] + rest, pattern, instead) == [c] + Replace(rest, pattern, instead)
  {
    var s := [c] + rest;
    assert s[1..] == rest;
    if |s| >= |pattern| {
      assert s[..|pattern|][0] == c;
      assert |pattern| > 1 ==> s[..|pattern|][1] == rest[0];
    } else {
      assert Replace(rest, pattern, instead) == rest;
    }
  }

  /** A CR LF goes through all three passes as one line break. */
  lemma NormalizePair(rest: string)
    ensures Normalize("\r\n" + rest) == "\r\n" + Normalize(rest)
  {
    hide Replace;
    var first := Replace(rest, "\r\n", "\n");
    ReplaceHit("\r\n", rest, "\n");
    ReplaceMiss('\n', first, "\r", "\n");
    ReplaceHit("\n", Replace(first, "\r", "\n"), "\r\n");
  }

  lemma NormalizeCr(rest: string)
    requires rest == "" || rest[0] != '\n'
    ensures Normalize("\r" + rest) == "\r\n" + Normalize(rest)
  {
    hide Replace;
    var first := Replace(rest, "\r\n", "\n");
    ReplaceMiss('\r', rest, "\r\n", "\n");
    ReplaceHit("\r", first, "\n");
    ReplaceHit("\n", Replace(first, "\r", "\n"), "\r\n");
  }

  lemma NormalizeOther(c: char, rest: string)
    requires c != '\r'
    ensures Normalize([c] + rest) == (if c == '\n' then "\r\n" else [c]) + Normalize(rest)
  {
    hide Replace;
    var first := Replace(rest, "\r\n", "\n");
    var second := Replace(first, "\r", "\n");
    ReplaceMiss(c, rest, "\r\n", "\n");
    ReplaceMiss(c, first, "\r", "\n");
    if c == '\n' {
      ReplaceHit("\n", second, "\r\n");
    } else {
      ReplaceMiss(c, second, "\n", "\r\n");
    }
  }

  // ----- what it computes -----

  lemma JoinHead(c: string, lines: seq<string>)
    requires lines != []
    ensures Join([c + lines[0]] + lines[1..]) == c + Join(lines)
  {
    var all := [c + lines[0]] + lines[1..];
    assert all[1..] == lines[1..];
    if |lines| > 1 {
      assert c + lines[0] + "\r\n" + Join(lines[1..]) == c + (lines[0] + "\r\n" + Join(lines[1..]));
    }
  }

  lemma JoinEmptyLine(lines: seq<string>)
    requires lines != []
    ensures Join([""] + lines) == "\r\n" + Join(lines)
  {
    assert ([""] + lines)[1..] == lines;
  }

  lemma NormalizeStep(s: string)
    requires s != ""
    ensures var n := BreakLength(s);
            Normalize(s) == if n > 0 then "\r\n" + Normalize(s[n..]) else [s[0]] + Normalize(s[1..])
  {
    hide Normalize;
    if BreakLength(s) == 2 {
      assert s == "\r\n" + s[2..];
      NormalizePair(s[2..]);
    } else {
      assert s == [s[0]] + s[1..];
      if s[0] == '\r' { NormalizeCr(s[1..]); } else { NormalizeOther(s[0], s[1..]); }
    }
  }

  /** The three passes put CR LF between the lines of the text, and do nothing else. */
  lemma {:induction false} NormalizeJoinsLines(s: string)
    ensures Normalize(s) == Join(Lines(s))
    decreases |s|
  {
    if s != "" {
      NormalizeStep(s);
      hide Normalize, Join, BreakLength;
      var n := BreakLength(s);
      if n > 0 {
        NormalizeJoinsLines(s[n..]);
        JoinEmptyLine(Lines(s[n..]));
      } else {
        NormalizeJoinsLines(s[1..]);
        JoinHead([s[0]], Lines(s[1..]));
      }
    }
  }

  lemma {:induction false} LinesHaveNoBreaks(s: string)
    ensures forall i :: 0 <= i < |Lines(s)| ==> NoBreaks(Lines(s)[i])
    decreases |s|
  {
    if s != "" {
      if BreakLength(s) > 0 { LinesHaveNoBreaks(s[BreakLength(s)..]); } else { LinesHaveNoBreaks(s[1..]); }
    }
  }

  lemma LinesOfChar(c: char, rest: string)
    requires !IsBreak(c)
    ensures Lines([c] + rest) == [[c] + Lines(rest)[0]] + Lines(rest)[1..]
  {
    assert ([c] + rest)[1..] == rest;
  }

  lemma {:induction false} LinesOfLine(line: string, rest: string)
    requires NoBreaks(line)
    ensures Lines(line + rest) == [line + Lines(rest)[0]] + Lines(rest)[1..]
  {
    if line == "" {
      assert line + rest == rest;
      assert line + Lines(rest)[0] == Lines(rest)[0];
    } else {
      LinesOfLine(line[1..], rest);
      LinesOfChar(line[0], line[1..] + rest);
      hide Lines;
      assert line + rest == [line[0]] + (line[1..] + rest);
      assert [line[0]] + (line[1..] + Lines(rest)[0]) == line + Lines(rest)[0];
    }
  }

  /** Joining loses nothing: lines without line breaks come back. */
  lemma {:induction false} LinesOfJoin(lines: seq<string>)
    requires lines != [] && forall i :: 0 <= i < |lines| ==> NoBreaks(lines[i])
    ensures Lines(Join(lines)) == lines
  {
    if |lines| == 1 {
      LinesOfLine(lines[0], "");
      assert lines[0] + "" == lines[0];
    } else {
      var rest := Join(lines[1..]);
      LinesOfJoin(lines[1..]);
      assert Join(lines) == lines[0] + ("\r\n" + rest);
      LinesOfLine(lines[0], "\r\n" + rest);
      LinesOfBreak(rest);
      assert lines[0] + "" == lines[0];
    }
  }

  lemma LinesOfBreak(rest: string)
    ensures Lines("\r\n" + rest) == [""] + Lines(rest)
  {
    assert ("\r\n" + rest)[2..] == rest;
  }

  /** Normalising changes no line, so it is idempotent. */
  lemma NormalizeKeepsLines(s: string)
    ensures Lines(Normalize(s)) == Lines(s)
    ensures Normalize(Normalize(s)) == Normalize(s)
  {
    NormalizeJoinsLines(s);
    LinesHaveNoBreaks(s);
    LinesOfJoin(Lines(s));
    NormalizeJoinsLines(Normalize(s));
  }

  // ----- where CR and LF stand -----

  /** Every CR is followed by LF and every LF preceded by CR. */
  predicate Paired(s: string)
  {
    && (forall i :: 0 <= i < |s| && s[i] == '\r' ==> i + 1 < |s| && s[i + 1] == '\n')
    && (forall i :: 0 <= i < |s| && s[i] == '\n' ==> i > 0 && s[i - 1] == '\r')
  }

  lemma {:induction false} JoinIsPaired(lines: seq<string>)
    requires lines != [] && forall i :: 0 <= i < |lines| ==> NoBreaks(lines[i])
    ensures Paired(Join(lines))
  {
    if |lines| > 1 {
      JoinIsPaired(lines[1..]);
      var head, tail := lines[0] + "\r\n", Join(lines[1..]);
      hide Join;
      assert Join(lines) == head + tail by { JoinStep(lines); }
      var s := head + tail;
      assert forall i :: |head| <= i < |s| ==> s[i] == tail[i - |head|];
      assert forall i :: 0 <= i < |lines[0]| ==> s[i] == lines[0][i] && !IsBreak(s[i]);
      forall i | 0 <= i < |s| && s[i] == '\r' ensures i + 1 < |s| && s[i + 1] == '\n' {
        if i >= |head| { assert tail[i - |head|] == '\r'; }
      }
      forall i | 0 <= i < |s| && s[i] == '\n' ensures i > 0 && s[i - 1] == '\r' {
        if i >= |head| { assert tail[i - |head|] == '\n'; }
      }
    } else {
      assert NoBreaks(lines[0]);
    }
  }

  lemma JoinStep(lines: seq<string>)
    requires |lines| > 1
    ensures Join(lines) == lines[0] + "\r\n" + Join(lines[1..])
  {
  }

  lemma PairedTail(s: string, n: nat)
    requires Paired(s) && 0 < n <= |s| && s[n - 1] != '\r'
    ensures Paired(s[n..])
  {
    var t := s[n..];
    forall i | 0 <= i < |t| && t[i] == '\r' ensures i + 1 < |t| && t[i + 1] == '\n' { assert s[n + i] == '\r'; }
    forall i | 0 <= i < |t| && t[i] == '\n' ensures i > 0 && t[i - 1] == '\r' { assert s[n + i] == '\n'; }
  }

  lemma {:induction false} PairedIsFixed(s: string)
    requires Paired(s)
    ensures Normalize(s) == s
    decreases |s|
  {
    if s != "" {
      NormalizeStep(s);
      hide Normalize;
      if s[0] == '\r' {
        assert s[1] == '\n';
        PairedTail(s, 2);
        PairedIsFixed(s[2..]);
        assert s == "\r\n" + s[2..];
      } else {
        PairedTail(s, 1);
        PairedIsFixed(s[1..]);
        assert s == [s[0]] + s[1..];
      }
    }
  }

  /** The result pairs every CR with an LF, and exactly the texts that do are left as they are. */
  lemma NormalizePairs(s: string)
    ensures Paired(Normalize(s))
    ensures Normalize(s) == s <==> Paired(s)
  {
    hide Normalize, Paired;
    NormalizeJoinsLines(s);
    LinesHaveNoBreaks(s);
    JoinIsPaired(Lines(s));
    if Paired(s) { PairedIsFixed(s); }
  }

  // ----- the other characters -----

  function Others(s: string): string
  {
    if s == "" then "" else (if IsBreak(s[0]) then "" else [s[0]]) + Others(s[1..])
  }

  lemma OthersOfPair(rest: string)
    ensures Others("\r\n" + rest) == Others(rest)
  {
    var s := "\r\n" + rest;
    assert s[1..] == "\n" + rest;
    assert s[1..][1..] == rest;
  }

  /** All characters other than CR and LF stay, in their order. */
  lemma {:induction false} NormalizeKeepsOthers(s: string)
    ensures Others(Normalize(s)) == Others(s)
    decreases |s|
  {
    if s != "" {
      NormalizeStep(s);
      hide Normalize;
      var n := BreakLength(s);
      if n > 0 {
        OthersOfPair(Normalize(s[n..]));
        NormalizeKeepsOthers(s[n..]);
        if n == 2 {
          assert s == "\r\n" + s[2..];
          OthersOfPair(s[2..]);
        }
      } else {
        NormalizeKeepsOthers(s[1..]);
        assert ([s[0]] + Normalize(s[1..]))[1..] == Normalize(s[1..]);
      }
    }
  }
}
