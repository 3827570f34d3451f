/**
 * `TextProcessor.clean_text`: one whitespace-collapsing substitution, three
 * substitutions for page numbers, page headers and runs of blank lines, and a final
 * `strip()`. The three middle patterns all begin with a newline, and after the first
 * substitution the text holds none, so they never fire: cleaning is "collapse every
 * whitespace run to one space, then strip".
 */
module TextCleaning {
  import opened Wrappers
  import opened Strings

  /** Every whitespace character is a plain space and no two whitespace characters are adjacent. */
  predicate Normalized(t: string) {
    && (forall i :: 0 <= i < |t| && IsSpace(t[i]) ==> t[i] == ' ')
    && (forall i :: 0 <= i < |t| - 1 ==> !(IsSpace(t[i]) && IsSpace(t[i + 1])))
  }

  /** `re.sub(r'\s+', ' ', s)`: each maximal whitespace run becomes one space. */
  function CollapseSpaces(s: string): (r: string)
    ensures Normalized(r)
    ensures |r| <= |s|
    ensures r != [] ==> (IsSpace(r[0]) <==> IsSpace(s[0]))
    decreases |s|
  {
    if s == [] then []
    else if IsSpace(s[0]) then [' '] + CollapseSpaces(StripLeft(s))
    else [s[0]] + CollapseSpaces(s[1..])
  }

  /** Collapsing keeps every non-whitespace character, in order. */
  lemma {:induction false} CollapseKeepsNonSpace(s: string)
    ensures NonSpace(CollapseSpaces(s)) == NonSpace(s)
    decreases |s|
  {
    if s != [] {
      if IsSpace(s[0]) {
        CollapseKeepsNonSpace(StripLeft(s));
        NonSpaceStripLeft(s);
        NonSpaceAppend([' '], CollapseSpaces(StripLeft(s)));
      } else {
        CollapseKeepsNonSpace(s[1..]);
        NonSpaceAppend([s[0]], CollapseSpaces(s[1..]));
      }
    }
  }

  /** A normalized text has nothing left to collapse. */
  lemma {:induction false} CollapseNormalized(t: string)
    requires Normalized(t)
    ensures CollapseSpaces(t) == t
    decreases |t|
  {
    if t != [] {
      assert Normalized(t[1..]);
      CollapseNormalized(t[1..]);
      if IsSpace(t[0]) {
        assert t[1..] != [] ==> !IsSpace(t[1..][0]);
        assert StripLeft(t) == t[1..];
      }
    }
  }

  /** A normalized text holds no line break. */
  lemma NormalizedHasNoLineBreak(t: string)
    requires Normalized(t)
    ensures '\n' !in t && '\r' !in t
  {
    forall i | 0 <= i < |t| ensures t[i] != '\n' && t[i] != '\r' {
      if IsSpace(t[i]) {
        assert t[i] == ' ';
      }
    }
  }

  lemma NormalizedSlice(t: string, i: nat, j: nat)
    requires Normalized(t) && i <= j <= |t|
    ensures Normalized(t[i..j])
  {
  }

  /** The three patterns of the page-cleanup substitutions, all anchored on a newline. */
  datatype Pattern =
    | PageNumberLine   // \n\d+\s*\n           replaced by one newline
    | PageHeaderLine   // \n\s*Page \d+.*?\n   (case-insensitive) replaced by one newline
    | BlankLineRun     // \n\s*\n\s*\n         replaced by two newlines

  /** Length of the whitespace run at the start of `s`. */
  function SpaceRun(s: string): (n: nat)
    ensures n <= |s|
  {
    |s| - |StripLeft(s)|
  }

  /** Index of the last newline in `w`. */
  function LastNewline(w: string): (r: Option<nat>)
    ensures r.Some? ==> r.value < |w| && w[r.value] == '\n'
    decreases |w|
  {
    if w == [] then None
    else if w[|w| - 1] == '\n' then Some(|w| - 1)
    else LastNewline(w[..|w| - 1])
  }

  /** Index of the first newline in `w`. */
  function FirstNewline(w: string): (r: Option<nat>)
    ensures r.Some? ==> r.value < |w| && w[r.value] == '\n'
  {
    var head := UpTo(w, '\n');
    if |head| < |w| then Some(|head|) else None
  }

  function NewlineCount(w: string): nat
    decreases |w|
  {
    if w == [] then 0 else (if w[0] == '\n' then 1 else 0) + NewlineCount(w[1..])
  }

  /** Length of the leftmost match of `p` at the start of `s`, if there is one. Greedy
      runs give back characters exactly as the regex engine's backtracking would: a
      `\s*` that must be followed by `\n` ends at the last newline of its run. */
  function MatchLength(p: Pattern, s: string): (r: Option<nat>)
    ensures r.Some? ==> 2 <= r.value <= |s| && s[0] == '\n'
  {
    if s == [] || s[0] != '\n' then None
    else match p
      case PageNumberLine =>
        var d := |TakeDigits(s[1..])|;
        if d == 0 then None
        else
          var run := s[1 + d..][..SpaceRun(s[1 + d..])];
          (match LastNewline(run)
           case None => None
           case Some(j) => Some(1 + d + j + 1))
      case PageHeaderLine =>
        var a := 1 + SpaceRun(s[1..]);
        if !(a + 5 <= |s| && Lower(s[a..a + 5]) == "page ") then None
        else
          var d := |TakeDigits(s[a + 5..])|;
          if d == 0 then None
          else
            var c := a + 5 + d;
            (match FirstNewline(s[c..])
             case None => None
             case Some(j) => Some(c + j + 1))
      case BlankLineRun =>
        var run := s[1..][..SpaceRun(s[1..])];
        if NewlineCount(run) < 2 then None
        else
          (match LastNewline(run)
           case None => None
           case Some(j) => Some(1 + j + 1))
  }

  /** `re.sub(p, repl, s)`: scan left to right, replacing each match and resuming after it. */
  function Substitute(p: Pattern, s: string, repl: string): string
    decreases |s|
  {
    if s == [] then []
    else match MatchLength(p, s)
      case Some(k) => repl + Substitute(p, s[k..], repl)
      case None => [s[0]] + Substitute(p, s[1..], repl)
  }

  /** A substitution whose pattern starts with a newline changes nothing in a text without one. */
  lemma {:induction false} SubstituteWithoutNewline(p: Pattern, s: string, repl: string)
    requires '\n' !in s
    ensures Substitute(p, s, repl) == s
    decreases |s|
  {
    if s != [] {
      assert MatchLength(p, s).None?;
      assert '\n' !in s[1..];
      SubstituteWithoutNewline(p, s[1..], repl);
    }
  }

  /** `TextProcessor.clean_text` */
  function CleanText(text: string): string {
    var t := CollapseSpaces(text);
    var t := Substitute(PageNumberLine, t, "\n");
    var t := Substitute(PageHeaderLine, t, "\n");
    var t := Substitute(BlankLineRun, t, "\n\n");
    Strip(t)
  }

  /** The page-cleanup substitutions are no-ops: cleaning is collapse-then-strip. */
  lemma CleanTextIsCollapseStrip(text: string)
    ensures CleanText(text) == Strip(CollapseSpaces(text))
  {
    var t := CollapseSpaces(text);
    NormalizedHasNoLineBreak(t);
    SubstituteWithoutNewline(PageNumberLine, t, "\n");
    SubstituteWithoutNewline(PageHeaderLine, t, "\n");
    SubstituteWithoutNewline(BlankLineRun, t, "\n\n");
  }

  /** The shape of collapse-then-strip, stated on the simplified form. */
  lemma CollapseStripShape(text: string)
    ensures var r := Strip(CollapseSpaces(text));
      && Normalized(r)
      && NonSpace(r) == NonSpace(text)
      && |r| <= |text|
  {
    var t := CollapseSpaces(text);
    var r := Strip(t);
    var a := |t| - |StripLeft(t)|;
    NormalizedSlice(t, a, a + |r|);
    CollapseKeepsNonSpace(text);
    NonSpaceStrip(t);
  }

  /** What cleaning guarantees about its output: no leading or trailing whitespace,
      every whitespace character a single space between two non-space characters, the
      same non-space characters in the same order, never longer than the input. */
  lemma CleanTextShape(text: string)
    ensures var r := CleanText(text);
      && Normalized(r)
      && (r != [] ==> !IsSpace(r[0]) && !IsSpace(r[|r| - 1]))
      && NonSpace(r) == NonSpace(text)
      && |r| <= |text|
      && '\n' !in r && '\r' !in r
  {
    CleanTextIsCollapseStrip(text);
    CollapseStripShape(text);
    NormalizedHasNoLineBreak(CleanText(text));
  }

  /** A normalized text without outer whitespace is left as it is. */
  lemma CleanTextFixesClean(t: string)
    requires Normalized(t)
    requires t != [] ==> !IsSpace(t[0]) && !IsSpace(t[|t| - 1])
    ensures CleanText(t) == t
  {
    CleanTextIsCollapseStrip(t);
    CollapseNormalized(t);
    StripOfStripped(t);
  }

  /** Cleaning an already cleaned text changes nothing. */
  lemma CleanTextIdempotent(text: string)
    ensures CleanText(CleanText(text)) == CleanText(text)
  {
    CleanTextShape(text);
    CleanTextFixesClean(CleanText(text));
  }
}
