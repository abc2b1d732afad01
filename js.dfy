/** The parts of the JavaScript standard library the application relies on,
    stated as functions with the meaning ECMAScript gives them: `trim`,
    `toLowerCase` (ASCII letters only), `includes`, `split`, `slice`,
    `filter`, `find`/`findIndex`, `Math.ceil` of a quotient, and the decimal
    rendering of a non-negative integer inside a template literal. */
module Js {

  import opened Wrappers

  // ---------------------------------------------------------------------
  // Whitespace
  // ---------------------------------------------------------------------

  /** ECMAScript WhiteSpace and LineTerminator code points: what `trim`
      removes and what the regular-expression class `\s` matches. */
  predicate IsSpace(c: char) {
    c == '\t' || c == '\n' || c == '\U{000B}' || c == '\U{000C}' || c == '\r'
    || c == ' ' || c == '\U{00A0}' || c == '\U{1680}'
    || ('\U{2000}' <= c <= '\U{200A}')
    || c == '\U{2028}' || c == '\U{2029}' || c == '\U{202F}' || c == '\U{205F}'
    || c == '\U{3000}' || c == '\U{FEFF}'
  }

  predicate AllSpace(s: string) {
    forall i :: 0 <= i < |s| ==> IsSpace(s[i])
  }

  predicate NoSpace(s: string) {
    forall i :: 0 <= i < |s| ==> !IsSpace(s[i])
  }

  /** Neither end of `s` is whitespace. */
  predicate IsTrimmed(s: string) {
    s == [] || (!IsSpace(s[0]) && !IsSpace(s[|s| - 1]))
  }

  /** No two neighbouring characters are both whitespace. */
  predicate NoDoubleSpace(s: string) {
    forall i :: 0 <= i < |s| - 1 ==> !(IsSpace(s[i]) && IsSpace(s[i + 1]))
  }

  /** Number of whitespace characters at the start of `s`. */
  function LeadingSpaces(s: string): (k: nat)
    ensures k <= |s|
    ensures forall i :: 0 <= i < k ==> IsSpace(s[i])
    ensures k < |s| ==> !IsSpace(s[k])
  {
    if |s| > 0 && IsSpace(s[0]) then
      var k := LeadingSpaces(s[1..]);
      assert forall i :: 1 <= i < k + 1 ==> s[i] == s[1..][i - 1];
      1 + k
    else 0
  }

  /** Where the whitespace at the end of `s` starts. */
  function TrailingStart(s: string): (k: nat)
    ensures k <= |s|
    ensures forall i :: k <= i < |s| ==> IsSpace(s[i])
    ensures k > 0 ==> !IsSpace(s[k - 1])
  {
    if |s| > 0 && IsSpace(s[|s| - 1]) then
      var k := TrailingStart(s[..|s| - 1]);
      assert forall i :: k <= i < |s| - 1 ==> s[i] == s[..|s| - 1][i];
      k
    else |s|
  }

  /** `s` without its leading whitespace. */
  function TrimStart(s: string): string {
    s[LeadingSpaces(s)..]
  }

  /** `String.prototype.trim`: `s` is whitespace, then the result, then
      whitespace, and the result starts and ends with a non-space. */
  function Trim(s: string): (r: string)
    ensures LeadingSpaces(s) + |r| <= |s|
    ensures r == s[LeadingSpaces(s)..LeadingSpaces(s) + |r|]
    ensures forall i :: 0 <= i < LeadingSpaces(s) ==> IsSpace(s[i])
    ensures forall i :: LeadingSpaces(s) + |r| <= i < |s| ==> IsSpace(s[i])
    ensures IsTrimmed(r)
    ensures r == [] <==> AllSpace(s)
  {
    var a, b := LeadingSpaces(s), TrailingStart(s);
    if a == |s| then []
    else
      assert !IsSpace(s[a]) && a < b;
      s[a..b]
  }

  /** JavaScript truthiness of `s.trim()`. */
  predicate IsBlank(s: string) {
    Trim(s) == ""
  }

  lemma {:induction false} TrimOfTrimmed(s: string)
    requires IsTrimmed(s)
    ensures Trim(s) == s
  {
    if s != [] {
      assert LeadingSpaces(s) == 0;
      assert TrailingStart(s) == |s|;
      assert s[0..] == s;
    }
  }

  /** Trimming twice is trimming once. */
  lemma TrimIdempotent(s: string)
    ensures Trim(Trim(s)) == Trim(s)
  {
    TrimOfTrimmed(Trim(s));
  }

  // ---------------------------------------------------------------------
  // Case folding and substring search
  // ---------------------------------------------------------------------

  function ToLowerChar(c: char): char {
    if 'A' <= c <= 'Z' then (c as int + 32) as char else c
  }

  /** `toLowerCase`, restricted to the ASCII letters. */
  function ToLower(s: string): (r: string)
    ensures |r| == |s|
    ensures forall i :: 0 <= i < |s| ==> r[i] == ToLowerChar(s[i])
    ensures forall i :: 0 <= i < |r| ==> !('A' <= r[i] <= 'Z')
  {
    seq(|s|, i requires 0 <= i < |s| => ToLowerChar(s[i]))
  }

  lemma ToLowerIdempotent(s: string)
    ensures ToLower(ToLower(s)) == ToLower(s)
  {
  }

  predicate StartsWith(s: string, prefix: string) {
    |prefix| <= |s| && s[..|prefix|] == prefix
  }

  /** `sub` occurs in `s` starting at position `i`. */
  predicate OccursAt(s: string, sub: string, i: int) {
    0 <= i <= |s| - |sub| && s[i..i + |sub|] == sub
  }

  /** `s.includes(sub)`, searched from the left. */
  predicate Includes(s: string, sub: string)
    decreases |s|
  {
    StartsWith(s, sub) || (|s| > 0 && Includes(s[1..], sub))
  }

  /** `includes` holds exactly when `sub` occurs at some position. */
  lemma {:induction false} IncludesAt(s: string, sub: string)
    ensures Includes(s, sub) <==> exists i :: OccursAt(s, sub, i)
    decreases |s|
  {
    if StartsWith(s, sub) {
      assert OccursAt(s, sub, 0);
    }
    if |s| > 0 {
      IncludesAt(s[1..], sub);
      if Includes(s[1..], sub) {
        var i :| OccursAt(s[1..], sub, i);
        assert s[i + 1..i + 1 + |sub|] == s[1..][i..i + |sub|];
        assert OccursAt(s, sub, i + 1);
      }
      if exists i :: OccursAt(s, sub, i) {
        var i :| OccursAt(s, sub, i);
        if i > 0 {
          assert s[1..][i - 1..i - 1 + |sub|] == s[i..i + |sub|];
          assert OccursAt(s[1..], sub, i - 1);
        } else {
          assert StartsWith(s, sub);
        }
      }
    } else {
      if exists i :: OccursAt(s, sub, i) {
        var i :| OccursAt(s, sub, i);
        assert StartsWith(s, sub);
      }
    }
  }

  /** Every string includes the empty string. */
  lemma IncludesEmpty(s: string)
    ensures Includes(s, "")
  {
    assert StartsWith(s, "");
  }

  // ---------------------------------------------------------------------
  // Splitting and joining
  // ---------------------------------------------------------------------

  /** `s.indexOf(c)` where `c` occurs: its first position. Where `c` does
      not occur the result is `|s|`, whereas JavaScript gives -1. */
  function IndexOf(s: string, c: char): (i: nat)
    ensures i <= |s|
    ensures i < |s| <==> c in s
    ensures i < |s| ==> s[i] == c
    ensures c !in s[..i]
  {
    if s == [] then 0
    else if s[0] == c then 0
    else 1 + IndexOf(s[1..], c)
  }

  /** The pieces joined with `sep` between them (`Array.prototype.join`). */
  function Join(pieces: seq<string>, sep: char): string {
    if |pieces| == 0 then ""
    else if |pieces| == 1 then pieces[0]
    else pieces[0] + [sep] + Join(pieces[1..], sep)
  }

  /** `s.split(sep)` for a one-character separator. */
  function Split(s: string, sep: char): (r: seq<string>)
    ensures |r| >= 1
    ensures forall i :: 0 <= i < |r| ==> sep !in r[i]
    ensures Join(r, sep) == s
    decreases |s|
  {
    if sep !in s then [s]
    else
      var i := IndexOf(s, sep);
      var rest := Split(s[i + 1..], sep);
      assert s == s[..i] + [sep] + s[i + 1..];
      [s[..i]] + rest
  }

  /** Splitting a join gives back the pieces, when no piece holds the separator. */
  lemma {:induction false} SplitJoin(pieces: seq<string>, sep: char)
    requires |pieces| >= 1
    requires forall i :: 0 <= i < |pieces| ==> sep !in pieces[i]
    ensures Split(Join(pieces, sep), sep) == pieces
  {
    if |pieces| > 1 {
      var s := Join(pieces, sep);
      var x := pieces[0];
      assert s == x + [sep] + Join(pieces[1..], sep);
      assert s[..|x|] == x;
      assert s[|x|] == sep;
      assert x == s[..|x|];
      assert IndexOf(s, sep) == |x| by {
        IndexOfAfterPrefix(s, x, sep);
      }
      assert s[|x| + 1..] == Join(pieces[1..], sep);
      SplitJoin(pieces[1..], sep);
    }
  }

  lemma IndexOfAfterPrefix(s: string, x: string, sep: char)
    requires |x| < |s| && s[..|x|] == x && s[|x|] == sep && sep !in x
    ensures IndexOf(s, sep) == |x|
  {
    var i := IndexOf(s, sep);
    assert sep !in s[..|x|];
  }

  /** Number of occurrences of `c` in `s`. */
  function Occurrences(s: string, c: char): nat {
    multiset(s)[c]
  }

  /** `split` yields one more piece than there are separators. */
  lemma {:induction false} SplitLength(s: string, sep: char)
    ensures |Split(s, sep)| == Occurrences(s, sep) + 1
    decreases |s|
  {
    if sep in s {
      var i := IndexOf(s, sep);
      assert s == s[..i] + [sep] + s[i + 1..];
      assert multiset(s) == multiset(s[..i]) + multiset{sep} + multiset(s[i + 1..]);
      assert sep !in multiset(s[..i]);
      SplitLength(s[i + 1..], sep);
    } else {
      assert sep !in multiset(s);
    }
  }

  /** `s.split(/\s+/)`: pieces separated by maximal runs of whitespace; a
      leading or trailing run yields an empty first or last piece. */
  function SplitSpaces(s: string): (r: seq<string>)
    ensures |r| >= 1
    ensures forall i :: 0 <= i < |r| ==> NoSpace(r[i])
    ensures forall i :: 0 < i < |r| - 1 ==> r[i] != ""
    ensures s != [] && !IsSpace(s[0]) ==> r[0] != ""
    decreases |s|
  {
    if NoSpace(s) then [s]
    else
      var i := FirstSpace(s);
      var rest := TrimStart(s[i..]);
      assert |rest| < |s[i..]|;
      var tail := SplitSpaces(rest);
      assert rest == [] ==> tail == [[]];
      [s[..i]] + tail
  }

  /** Position of the first whitespace character of a string that has one. */
  function FirstSpace(s: string): (i: nat)
    requires !NoSpace(s)
    ensures i < |s| && IsSpace(s[i]) && NoSpace(s[..i])
  {
    if IsSpace(s[0]) then 0
    else
      var j := FirstSpace(s[1..]);
      assert s[..j + 1] == [s[0]] + s[1..][..j];
      1 + j
  }

  /** `split(/\s+/)` of words joined by single spaces gives back the words. */
  lemma {:induction false} SplitSpacesJoin(words: seq<string>)
    requires |words| >= 1
    requires forall i :: 0 <= i < |words| ==> words[i] != "" && NoSpace(words[i])
    ensures SplitSpaces(Join(words, ' ')) == words
  {
    var s := Join(words, ' ');
    if |words| == 1 {
      assert s == words[0];
    } else {
      var x := words[0];
      var rest := Join(words[1..], ' ');
      assert s == x + [' '] + rest;
      assert !IsSpace(rest[0]) by { JoinStartsWith(words[1..], ' '); }
      assert !NoSpace(s) by { assert IsSpace(s[|x|]); }
      var i := FirstSpace(s);
      assert i == |x| by {
        assert NoSpace(s[..|x|]);
        assert IsSpace(s[|x|]);
      }
      assert s[..i] == x;
      assert s[i..] == [' '] + rest;
      assert TrimStart(s[i..]) == rest by {
        assert s[i..][1..] == rest;
        assert LeadingSpaces(s[i..]) == 1 + LeadingSpaces(rest);
        assert LeadingSpaces(rest) == 0;
      }
      SplitSpacesJoin(words[1..]);
    }
  }

  /** The pieces with the separators between them:
      `pieces[0] + seps[0] + pieces[1] + … + pieces[|pieces| - 1]`. */
  function Interleave(pieces: seq<string>, seps: seq<string>): string
    requires |pieces| == |seps| + 1
  {
    if seps == [] then pieces[0]
    else pieces[0] + seps[0] + Interleave(pieces[1..], seps[1..])
  }

  /** `pieces` and `seps` cut `s` at its maximal runs of whitespace: `s` is
      the pieces with the runs between them, no piece holds whitespace, every
      run is non-empty whitespace, and only the first and the last piece may
      be empty (when `s` starts or ends with whitespace). */
  predicate CutAtRuns(s: string, pieces: seq<string>, seps: seq<string>) {
    && |pieces| == |seps| + 1
    && (forall i :: 0 <= i < |pieces| ==> NoSpace(pieces[i]))
    && (forall i :: 0 < i < |pieces| - 1 ==> pieces[i] != "")
    && (forall i :: 0 <= i < |seps| ==> seps[i] != "" && AllSpace(seps[i]))
    && Interleave(pieces, seps) == s
  }

  /** The maximal runs of whitespace of `s`, in order: what `split(/\s+/)`
      cuts out between its pieces. */
  function SpaceRuns(s: string): (r: seq<string>)
    ensures forall i :: 0 <= i < |r| ==> r[i] != "" && AllSpace(r[i])
    ensures |r| + 1 == |SplitSpaces(s)|
    decreases |s|
  {
    if NoSpace(s) then []
    else
      var i := FirstSpace(s);
      var k := LeadingSpaces(s[i..]);
      assert s[i..][0] == s[i];
      var rest := s[i..][k..];
      assert rest == TrimStart(s[i..]);
      assert SplitSpaces(s) == [s[..i]] + SplitSpaces(rest);
      [s[i..][..k]] + SpaceRuns(rest)
  }

  /** Whitespace followed by a non-space (or nothing) is a leading run of
      exactly its own length. */
  lemma {:induction false} LeadingSpacesOfRun(run: string, t: string)
    requires AllSpace(run) && (t == [] || !IsSpace(t[0]))
    ensures LeadingSpaces(run + t) == |run|
  {
    if run != [] {
      assert (run + t)[1..] == run[1..] + t;
      LeadingSpacesOfRun(run[1..], t);
    } else {
      assert run + t == t;
    }
  }

  /** Peeling the first piece and run off a cut leaves a cut of the rest,
      and the rest does not start with whitespace. */
  lemma CutRest(s: string, pieces: seq<string>, seps: seq<string>)
    requires CutAtRuns(s, pieces, seps) && |seps| > 0
    ensures var t := Interleave(pieces[1..], seps[1..]);
      && s == pieces[0] + seps[0] + t
      && CutAtRuns(t, pieces[1..], seps[1..])
      && (t == [] || !IsSpace(t[0]))
  {
    var t := Interleave(pieces[1..], seps[1..]);
    if |seps| > 1 {
      assert pieces[1] != "";
      assert t == pieces[1] + seps[1] + Interleave(pieces[2..], seps[2..]);
      assert t[0] == pieces[1][0];
    }
    forall i | 0 < i < |pieces[1..]| - 1 ensures pieces[1..][i] != "" {
      assert pieces[1..][i] == pieces[i + 1];
    }
  }

  /** A word and a run put in front of a cut give a cut, when the old
      first piece is not an empty interior piece. */
  lemma CutCons(w: string, run: string, t: string, pieces: seq<string>, seps: seq<string>)
    requires CutAtRuns(t, pieces, seps) && NoSpace(w) && run != "" && AllSpace(run)
    requires |pieces| > 1 ==> pieces[0] != ""
    ensures CutAtRuns(w + run + t, [w] + pieces, [run] + seps)
  {
    var p, q := [w] + pieces, [run] + seps;
    assert p[1..] == pieces && q[1..] == seps;
    forall j | 0 < j < |p| - 1 ensures p[j] != "" {
      assert p[j] == pieces[j - 1];
    }
  }

  /** One step of `split(/\s+/)` on a text with whitespace: the text before
      the first run, the run, and the rest after it. */
  lemma SplitSpacesStep(s: string) returns (w: string, run: string, rest: string)
    requires !NoSpace(s)
    ensures s == w + run + rest && NoSpace(w) && run != "" && AllSpace(run)
    ensures rest == [] || !IsSpace(rest[0])
    ensures |rest| < |s|
    ensures SplitSpaces(s) == [w] + SplitSpaces(rest)
    ensures SpaceRuns(s) == [run] + SpaceRuns(rest)
  {
    var i := FirstSpace(s);
    var k := LeadingSpaces(s[i..]);
    assert s[i..][0] == s[i];
    w, run, rest := s[..i], s[i..][..k], s[i..][k..];
    assert rest == TrimStart(s[i..]);
    assert s == w + run + rest;
  }

  /** `split(/\s+/)` cuts the text at its maximal runs of whitespace. */
  lemma {:induction false} SplitSpacesCuts(s: string)
    ensures CutAtRuns(s, SplitSpaces(s), SpaceRuns(s))
    decreases |s|
  {
    if !NoSpace(s) {
      var w, run, rest := SplitSpacesStep(s);
      SplitSpacesCuts(rest);
      var p' := SplitSpaces(rest);
      assert rest == [] ==> p' == [[]];
      CutCons(w, run, rest, p', SpaceRuns(rest));
    }
  }

  /** The cut at the runs is the only one: any way of writing `s` as
      whitespace-free pieces between maximal runs is the one `split(/\s+/)`
      finds. */
  lemma {:induction false} CutAtRunsUnique(s: string, pieces: seq<string>, seps: seq<string>)
    requires CutAtRuns(s, pieces, seps)
    ensures pieces == SplitSpaces(s) && seps == SpaceRuns(s)
    decreases |seps|
  {
    if seps == [] {
      CutWhole(s, pieces);
    } else {
      var t := Interleave(pieces[1..], seps[1..]);
      CutRest(s, pieces, seps);
      CutAtRunsUnique(t, pieces[1..], seps[1..]);
      CutStep(s, pieces, seps);
    }
  }

  lemma CutWhole(s: string, pieces: seq<string>)
    requires CutAtRuns(s, pieces, [])
    ensures pieces == SplitSpaces(s) && SpaceRuns(s) == []
  {
    assert s == pieces[0];
  }

  /** The first step of `split(/\s+/)` on a cut text takes off the cut's
      first piece and run, so the cut is the split when the rest of it is. */
  lemma CutStep(s: string, pieces: seq<string>, seps: seq<string>)
    requires CutAtRuns(s, pieces, seps) && |seps| > 0
    requires var t := Interleave(pieces[1..], seps[1..]);
      pieces[1..] == SplitSpaces(t) && seps[1..] == SpaceRuns(t)
    ensures pieces == SplitSpaces(s) && seps == SpaceRuns(s)
  {
    var t := Interleave(pieces[1..], seps[1..]);
    CutRest(s, pieces, seps);
    assert s[|pieces[0]|] == seps[0][0];
    var w, run, rest := SplitSpacesStep(s);
    FirstRunUnique(pieces[0], seps[0], t, w, run, rest);
    assert pieces == [w] + pieces[1..];
    assert seps == [run] + seps[1..];
  }

  /** A text has only one first word, first run and rest. */
  lemma FirstRunUnique(w: string, run: string, t: string, w': string, run': string, t': string)
    requires w + run + t == w' + run' + t'
    requires NoSpace(w) && NoSpace(w') && run != "" && run' != "" && AllSpace(run) && AllSpace(run')
    requires (t == [] || !IsSpace(t[0])) && (t' == [] || !IsSpace(t'[0]))
    ensures w == w' && run == run' && t == t'
  {
    assert w + (run + t) == w + run + t;
    assert w' + (run' + t') == w' + run' + t';
    assert (run + t)[0] == run[0] && (run' + t')[0] == run'[0];
    WordUnique(w, run + t, w', run' + t');
    RunUnique(run, t, run', t');
  }

  lemma WordUnique(w: string, u: string, w': string, u': string)
    requires w + u == w' + u' && NoSpace(w) && NoSpace(w')
    requires u != [] && IsSpace(u[0]) && u' != [] && IsSpace(u'[0])
    ensures w == w' && u == u'
  {
    var s := w + u;
    FirstSpaceAfterWord(w, u);
    FirstSpaceAfterWord(w', u');
    assert w == s[..|w|] && u == s[|w|..];
    assert w' == s[..|w'|] && u' == s[|w'|..];
  }

  lemma FirstSpaceAfterWord(w: string, u: string)
    requires NoSpace(w) && u != [] && IsSpace(u[0])
    ensures !NoSpace(w + u) && FirstSpace(w + u) == |w|
  {
    var s := w + u;
    assert IsSpace(s[|w|]);
    var i := FirstSpace(s);
    assert forall j :: 0 <= j < |w| ==> s[j] == w[j];
    assert forall j :: 0 <= j < i ==> s[..i][j] == s[j];
  }

  lemma RunUnique(run: string, t: string, run': string, t': string)
    requires run + t == run' + t' && AllSpace(run) && AllSpace(run')
    requires (t == [] || !IsSpace(t[0])) && (t' == [] || !IsSpace(t'[0]))
    ensures run == run' && t == t'
  {
    var u := run + t;
    LeadingSpacesOfRun(run, t);
    LeadingSpacesOfRun(run', t');
    assert run == u[..|run|] && run' == u[..|run'|];
    assert t == u[|run|..] && t' == u[|run'|..];
  }

  /** The first piece is empty exactly when the text is empty or starts with
      whitespace, and the last exactly when it is empty or ends with it. */
  lemma {:induction false} CutEnds(s: string, pieces: seq<string>, seps: seq<string>)
    requires CutAtRuns(s, pieces, seps)
    ensures pieces[0] == "" <==> s == [] || IsSpace(s[0])
    ensures pieces[|pieces| - 1] == "" <==> s == [] || IsSpace(s[|s| - 1])
    decreases |seps|
  {
    if seps == [] {
      assert s == pieces[0];
    } else {
      var t := Interleave(pieces[1..], seps[1..]);
      CutRest(s, pieces, seps);
      CutEnds(t, pieces[1..], seps[1..]);
      var w, run := pieces[0], seps[0];
      assert s[0] == if w == "" then run[0] else w[0];
      assert pieces[|pieces| - 1] == pieces[1..][|pieces[1..]| - 1];
      assert s[|s| - 1] == if t == [] then run[|run| - 1] else t[|t| - 1];
    }
  }

  /** `s.split(/\s+/)`: the first piece is empty exactly when `s` is empty
      or starts with whitespace, the last exactly when `s` is empty or ends
      with whitespace, and there is one piece more than there are maximal
      runs of whitespace. */
  lemma SplitSpacesEnds(s: string)
    ensures var r := SplitSpaces(s);
      && (r[0] == "" <==> s == [] || IsSpace(s[0]))
      && (r[|r| - 1] == "" <==> s == [] || IsSpace(s[|s| - 1]))
  {
    SplitSpacesCuts(s);
    CutEnds(s, SplitSpaces(s), SpaceRuns(s));
  }

  lemma JoinStartsWith(pieces: seq<string>, sep: char)
    requires |pieces| >= 1 && pieces[0] != ""
    ensures Join(pieces, sep) != "" && Join(pieces, sep)[0] == pieces[0][0]
  {
  }

  /** A join ends with its last piece, after a separator when there is more
      than one piece. */
  lemma {:induction false} JoinLast(pieces: seq<string>, sep: char)
    requires |pieces| >= 1
    ensures var j, x := Join(pieces, sep), pieces[|pieces| - 1];
      |x| <= |j| && j[|j| - |x|..] == x
      && (|pieces| == 1 ==> j == x)
      && (|pieces| > 1 ==> |x| < |j| && j[|j| - |x| - 1] == sep)
  {
    if |pieces| > 1 {
      var rest := pieces[1..];
      JoinLast(rest, sep);
      var j, t, x := Join(pieces, sep), Join(rest, sep), pieces[|pieces| - 1];
      assert rest[|rest| - 1] == x;
      assert j == pieces[0] + [sep] + t;
      var d := |pieces[0]| + 1;
      assert j[d..] == t;
      assert j[|j| - |x|..] == t[|t| - |x|..];
      if |rest| == 1 {
        assert j[|j| - |x| - 1] == j[|pieces[0]|];
      } else {
        assert j[|j| - |x| - 1] == t[|t| - |x| - 1];
      }
    }
  }

  /** `s.split(sep).pop()`: the longest suffix of `s` without `sep`. */
  function LastPiece(s: string, sep: char): (r: string)
    ensures sep !in r && |r| <= |s| && s[|s| - |r|..] == r
    ensures |r| < |s| ==> s[|s| - |r| - 1] == sep
    ensures r == [] <==> s == [] || s[|s| - 1] == sep
  {
    var pieces := Split(s, sep);
    JoinLast(pieces, sep);
    var r := pieces[|pieces| - 1];
    assert r != [] ==> s[|s| - 1] == r[|r| - 1];
    r
  }

  // ---------------------------------------------------------------------
  // Regular-expression replacement used by the proofreader
  // ---------------------------------------------------------------------

  /** The characters of `s` that are not whitespace, in order. */
  function NonSpaces(s: string): string {
    if s == [] then []
    else if IsSpace(s[0]) then NonSpaces(s[1..])
    else [s[0]] + NonSpaces(s[1..])
  }

  lemma {:induction false} NonSpacesAppend(a: string, b: string)
    ensures NonSpaces(a + b) == NonSpaces(a) + NonSpaces(b)
  {
    if a == [] {
      assert a + b == b;
    } else {
      assert (a + b)[0] == a[0];
      assert (a + b)[1..] == a[1..] + b;
      NonSpacesAppend(a[1..], b);
    }
  }

  lemma {:induction false} NonSpacesOfSpaces(s: string)
    requires AllSpace(s)
    ensures NonSpaces(s) == []
  {
    if s != [] { NonSpacesOfSpaces(s[1..]); }
  }

  /** `s.replace(/\s{2,}/g, ' ')`: the matches are found from the left, and
      each is a whole run of two or more whitespace characters (the
      quantifier is greedy); a lone whitespace character does not match. */
  function CollapseSpaces(s: string): string
    decreases |s|
  {
    if s == [] then []
    else if IsSpace(s[0]) then
      var run := LeadingSpaces(s);
      (if run >= 2 then [' '] else [s[0]]) + CollapseSpaces(s[run..])
    else [s[0]] + CollapseSpaces(s[1..])
  }

  /** No two neighbouring whitespace characters remain, the result starts
      with whitespace exactly when the text does, only the empty text gives
      the empty result, and the non-space characters are kept in order. */
  lemma CollapseSpacesShape(s: string)
    ensures var r := CollapseSpaces(s);
      && NoDoubleSpace(r)
      && ((r != [] && IsSpace(r[0])) <==> (s != [] && IsSpace(s[0])))
      && (r == [] <==> s == [])
      && NonSpaces(r) == NonSpaces(s)
  {
    CollapseNoDoubleSpace(s);
    CollapseKeepsNonSpaces(s);
  }

  lemma {:induction false} CollapseNoDoubleSpace(s: string)
    ensures var r := CollapseSpaces(s);
      && NoDoubleSpace(r)
      && ((r != [] && IsSpace(r[0])) <==> (s != [] && IsSpace(s[0])))
      && (r == [] <==> s == [])
    decreases |s|
  {
    if s != [] {
      if IsSpace(s[0]) {
        CollapseNoDoubleSpace(s[LeadingSpaces(s)..]);
      } else {
        CollapseNoDoubleSpace(s[1..]);
      }
    }
  }

  lemma {:induction false} CollapseKeepsNonSpaces(s: string)
    ensures NonSpaces(CollapseSpaces(s)) == NonSpaces(s)
    decreases |s|
  {
    if s != [] {
      if IsSpace(s[0]) {
        var run := LeadingSpaces(s);
        var rest := s[run..];
        var head := if run >= 2 then [' '] else [s[0]];
        CollapseKeepsNonSpaces(rest);
        assert s == s[..run] + rest;
        NonSpacesAppend(s[..run], rest);
        NonSpacesOfSpaces(s[..run]);
        NonSpacesAppend(head, CollapseSpaces(rest));
      } else {
        CollapseKeepsNonSpaces(s[1..]);
        assert s == [s[0]] + s[1..];
        NonSpacesAppend([s[0]], s[1..]);
        NonSpacesAppend([s[0]], CollapseSpaces(s[1..]));
      }
    }
  }

  /** A string without neighbouring whitespace is left alone. */
  lemma {:induction false} CollapseSpacesIdentity(s: string)
    requires NoDoubleSpace(s)
    ensures CollapseSpaces(s) == s
    decreases |s|
  {
    if s != [] {
      if IsSpace(s[0]) {
        assert |s| == 1 || !IsSpace(s[1]);
        assert LeadingSpaces(s) == 1 by {
          assert LeadingSpaces(s) == 1 + LeadingSpaces(s[1..]);
        }
      }
      CollapseSpacesIdentity(s[1..]);
    }
  }

  /** What `replace(/\s{2,}/g, ' ')` leaves of one maximal run of whitespace:
      one space for two or more characters, the character itself for one. */
  function ShrinkRun(run: string): string {
    if |run| >= 2 then " " else run
  }

  function ShrinkRuns(runs: seq<string>): (r: seq<string>)
    ensures |r| == |runs|
    ensures forall i :: 0 <= i < |r| ==> r[i] == ShrinkRun(runs[i])
  {
    if runs == [] then [] else [ShrinkRun(runs[0])] + ShrinkRuns(runs[1..])
  }

  lemma CollapseNonSpace(c: char, x: string)
    requires !IsSpace(c)
    ensures CollapseSpaces([c] + x) == [c] + CollapseSpaces(x)
  {
    assert ([c] + x)[1..] == x;
  }

  /** A word without whitespace passes through unchanged. */
  lemma {:induction false} CollapseWord(w: string, x: string)
    requires NoSpace(w)
    ensures CollapseSpaces(w + x) == w + CollapseSpaces(x)
  {
    if w == [] {
      assert w + x == x;
    } else {
      var c, v := w[0], w[1..];
      assert w + x == [c] + (v + x);
      CollapseNonSpace(c, v + x);
      CollapseWord(v, x);
      assert w == [c] + v;
    }
  }

  /** A maximal run of whitespace is shrunk on its own. */
  lemma CollapseRun(run: string, x: string)
    requires run != "" && AllSpace(run) && (x == [] || !IsSpace(x[0]))
    ensures CollapseSpaces(run + x) == ShrinkRun(run) + CollapseSpaces(x)
  {
    LeadingSpacesOfRun(run, x);
    assert (run + x)[0] == run[0];
    assert (run + x)[|run|..] == x;
    assert |run| == 1 ==> run == [run[0]];
  }

  lemma {:induction false} CollapseCut(s: string, pieces: seq<string>, seps: seq<string>)
    requires CutAtRuns(s, pieces, seps)
    ensures CollapseSpaces(s) == Interleave(pieces, ShrinkRuns(seps))
    decreases |seps|
  {
    if seps == [] {
      assert s == pieces[0] && s + [] == s;
      CollapseWord(s, []);
    } else {
      var t := Interleave(pieces[1..], seps[1..]);
      CutRest(s, pieces, seps);
      CollapseCut(t, pieces[1..], seps[1..]);
      assert s == pieces[0] + (seps[0] + t);
      CollapseWord(pieces[0], seps[0] + t);
      CollapseRun(seps[0], t);
      assert ShrinkRuns(seps)[1..] == ShrinkRuns(seps[1..]);
    }
  }

  /** `s.replace(/\s{2,}/g, ' ')` by the runs of `s`: the text between the
      runs is kept, each run of two or more whitespace characters becomes a
      single space and a lone whitespace character is kept as it is; so the
      result splits into the same pieces, at the shrunk runs. */
  lemma CollapseSpacesByRuns(s: string)
    ensures CollapseSpaces(s) == Interleave(SplitSpaces(s), ShrinkRuns(SpaceRuns(s)))
    ensures SplitSpaces(CollapseSpaces(s)) == SplitSpaces(s)
    ensures SpaceRuns(CollapseSpaces(s)) == ShrinkRuns(SpaceRuns(s))
  {
    SplitSpacesCuts(s);
    var p, q := SplitSpaces(s), ShrinkRuns(SpaceRuns(s));
    CollapseCut(s, p, SpaceRuns(s));
    CutShrink(s, p, SpaceRuns(s));
    CutAtRunsUnique(CollapseSpaces(s), p, q);
  }

  /** Two spaces become one; a lone tab stays. */
  lemma CollapseSpacesExample()
    ensures CollapseSpaces("a  b") == "a b"
    ensures CollapseSpaces("a\tb") == "a\tb"
  {
    assert LeadingSpaces("  b") == 2 by {
      assert "  b"[1..] == " b" && " b"[1..] == "b";
    }
    assert "  b"[2..] == "b";
    assert "a  b"[1..] == "  b";
    assert "a\tb"[1..] == "\tb" && "\tb"[1..] == "b";
    assert LeadingSpaces("\tb") == 1 by { assert "\tb"[1..] == "b"; }
  }

  /** Shrinking the runs of a cut leaves a cut of the shrunk text. */
  lemma CutShrink(s: string, pieces: seq<string>, seps: seq<string>)
    requires CutAtRuns(s, pieces, seps)
    ensures CutAtRuns(Interleave(pieces, ShrinkRuns(seps)), pieces, ShrinkRuns(seps))
  {
    assert IsSpace(' ');
  }

  lemma NoDoubleSpaceSlice(s: string, a: nat, b: nat)
    requires NoDoubleSpace(s) && a <= b <= |s|
    ensures NoDoubleSpace(s[a..b])
  {
    forall i | 0 <= i < |s[a..b]| - 1
      ensures !(IsSpace(s[a..b][i]) && IsSpace(s[a..b][i + 1]))
    {
      assert s[a..b][i] == s[a + i] && s[a..b][i + 1] == s[a + i + 1];
    }
  }

  lemma TrimNonSpaces(s: string)
    ensures NonSpaces(Trim(s)) == NonSpaces(s)
  {
    var k := LeadingSpaces(s);
    var r := Trim(s);
    var head, rest := s[..k], s[k + |r|..];
    assert s == head + (r + rest);
    forall i | 0 <= i < |head| ensures IsSpace(head[i]) {
      assert head[i] == s[i];
    }
    forall i | 0 <= i < |rest| ensures IsSpace(rest[i]) {
      assert rest[i] == s[k + |r| + i];
    }
    NonSpacesOfSpaces(head);
    NonSpacesOfSpaces(rest);
    NonSpacesAppend(r, rest);
    NonSpacesAppend(head, r + rest);
  }

  // ---------------------------------------------------------------------
  // Numbers in template literals
  // ---------------------------------------------------------------------

  predicate IsDigit(c: char) {
    '0' <= c <= '9'
  }

  function DigitChar(d: nat): (c: char)
    requires d < 10
    ensures IsDigit(c)
  {
    ('0' as int + d) as char
  }

  /** The decimal rendering of `n`, as `${n}` produces it. */
  function NatToString(n: nat): (r: string)
    ensures |r| >= 1
    ensures forall i :: 0 <= i < |r| ==> IsDigit(r[i])
    ensures r[0] == '0' ==> n == 0
  {
    if n < 10 then [DigitChar(n)] else NatToString(n / 10) + [DigitChar(n % 10)]
  }

  /** The value of a string of decimal digits. */
  function ParseDigits(s: string): nat
    requires forall i :: 0 <= i < |s| ==> IsDigit(s[i])
  {
    if s == [] then 0
    else
      assert IsDigit(s[|s| - 1]);
      ParseDigits(s[..|s| - 1]) * 10 + (s[|s| - 1] as int - '0' as int)
  }

  lemma {:induction false} ParseNatToString(n: nat)
    ensures ParseDigits(NatToString(n)) == n
  {
    if n >= 10 {
      var s := NatToString(n);
      assert s[..|s| - 1] == NatToString(n / 10);
      ParseNatToString(n / 10);
    }
  }

  /** Different numbers render differently. */
  lemma NatToStringInjective(m: nat, n: nat)
    ensures NatToString(m) == NatToString(n) ==> m == n
  {
    ParseNatToString(m);
    ParseNatToString(n);
  }

  /** Same prefix, different numbers: different strings. */
  lemma PrefixedNatInjective(prefix: string, m: nat, n: nat)
    ensures prefix + NatToString(m) == prefix + NatToString(n) ==> m == n
  {
    if prefix + NatToString(m) == prefix + NatToString(n) {
      assert NatToString(m) == (prefix + NatToString(m))[|prefix|..];
      assert NatToString(n) == (prefix + NatToString(n))[|prefix|..];
      NatToStringInjective(m, n);
    }
  }

  /** `Math.ceil(n / d)` for a non-negative count and a positive divisor. */
  function CeilDiv(n: nat, d: nat): (r: nat)
    requires d > 0
    ensures (r - 1) * d < n <= r * d || (n == 0 && r == 0)
    ensures n == 0 <==> r == 0
  {
    var q := (n + d - 1) / d;
    assert q * d <= n + d - 1 < q * d + d;
    q
  }

  lemma MulMono(a: int, b: int, c: nat)
    requires a <= b
    ensures a * c <= b * c
  {
  }

  // ---------------------------------------------------------------------
  // Array helpers
  // ---------------------------------------------------------------------

  /** The position `Array.prototype.slice` uses for a relative index `k`:
      negative counts from the end, and both ends are clamped to the array. */
  function SliceIndex(len: nat, k: int): (r: nat)
    ensures r <= len
    ensures 0 <= k <= len ==> r == k
    ensures k > len ==> r == len
  {
    if k < 0 then (if len + k < 0 then 0 else len + k)
    else if k > len then len
    else k
  }

  /** `s.slice(start, end)`. */
  function Slice<T>(s: seq<T>, start: int, end: int): (r: seq<T>)
    ensures |r| <= |s|
    ensures 0 <= start <= end ==>
              var a := if start < |s| then start else |s|;
              var b := if end < |s| then end else |s|;
              r == s[a..b]
    ensures 0 <= end <= start ==> r == []
    ensures end == 0 ==> r == []
    ensures start <= end ==> |r| <= end - start
  {
    var a := SliceIndex(|s|, start);
    var b := SliceIndex(|s|, end);
    if a < b then s[a..b] else []
  }

  /** `s.filter(p)`: the elements satisfying `p`, in their order. */
  function Filter<T(!new)>(s: seq<T>, p: T -> bool): (r: seq<T>)
    ensures |r| <= |s|
    ensures forall x :: x in r <==> x in s && p(x)
    ensures multiset(r) <= multiset(s)
  {
    if s == [] then []
    else
      assert s == [s[0]] + s[1..];
      if p(s[0]) then [s[0]] + Filter(s[1..], p)
      else Filter(s[1..], p)
  }

  lemma {:induction false} FilterAppend<T(!new)>(a: seq<T>, b: seq<T>, p: T -> bool)
    ensures Filter(a + b, p) == Filter(a, p) + Filter(b, p)
  {
    if a == [] {
      assert a + b == b;
    } else {
      assert (a + b)[0] == a[0];
      assert (a + b)[1..] == a[1..] + b;
      FilterAppend(a[1..], b, p);
    }
  }

  lemma {:induction false} FilterAll<T(!new)>(s: seq<T>, p: T -> bool)
    requires forall i :: 0 <= i < |s| ==> p(s[i])
    ensures Filter(s, p) == s
  {
    if s != [] { FilterAll(s[1..], p); }
  }

  lemma {:induction false} FilterNone<T(!new)>(s: seq<T>, p: T -> bool)
    requires forall i :: 0 <= i < |s| ==> !p(s[i])
    ensures Filter(s, p) == []
  {
    if s != [] { FilterNone(s[1..], p); }
  }

  /** `s.filter(p).length`. */
  function Count<T(!new)>(s: seq<T>, p: T -> bool): nat {
    |Filter(s, p)|
  }

  /** `s.findIndex(p)`: the first position satisfying `p`, or -1. */
  function FindIndex<T>(s: seq<T>, p: T -> bool): (r: int)
    ensures -1 <= r < |s|
    ensures r == -1 <==> forall i :: 0 <= i < |s| ==> !p(s[i])
    ensures r >= 0 ==> p(s[r]) && forall i :: 0 <= i < r ==> !p(s[i])
  {
    if s == [] then -1
    else if p(s[0]) then 0
    else
      var k := FindIndex(s[1..], p);
      if k == -1 then -1 else k + 1
  }

  /** `s.find(p)`, with `undefined` as `None`. */
  function Find<T>(s: seq<T>, p: T -> bool): (r: Option<T>)
    ensures r.None? <==> forall i :: 0 <= i < |s| ==> !p(s[i])
    ensures r.Some? ==> FindIndex(s, p) >= 0 && r.value == s[FindIndex(s, p)]
  {
    var k := FindIndex(s, p);
    if k < 0 then None else Some(s[k])
  }

  /** `s.map(f)`. */
  function Map<T, U>(s: seq<T>, f: T -> U): (r: seq<U>)
    ensures |r| == |s|
    ensures forall i :: 0 <= i < |s| ==> r[i] == f(s[i])
  {
    seq(|s|, i requires 0 <= i < |s| => f(s[i]))
  }

  lemma MapAppend<T, U>(a: seq<T>, b: seq<T>, f: T -> U)
    ensures Map(a + b, f) == Map(a, f) + Map(b, f)
  {
    assert forall i :: 0 <= i < |a| + |b| ==> (a + b)[i] == if i < |a| then a[i] else b[i - |a|];
  }

  /** `Math.min`, `Math.max`. */
  function Min(a: int, b: int): (r: int)
    ensures r <= a && r <= b && (r == a || r == b)
  {
    if a <= b then a else b
  }

  function Max(a: int, b: int): (r: int)
    ensures r >= a && r >= b && (r == a || r == b)
  {
    if a >= b then a else b
  }
}
