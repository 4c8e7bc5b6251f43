/**
 * The stateless text utilities of the support agent: ticket-reference extraction,
 * whitespace normalisation, keyword extraction, keyword-set similarity and
 * length-bounded formatting. Character classes are ASCII (see module Chars).
 */
module Text {
  import opened Wrappers
  import opened Slices
  import opened Chars
  import opened Ranking

  // ---------------------------------------------------------------------------
  // Character runs
  // ---------------------------------------------------------------------------

  /** The character classes the scanners below take maximal runs of. */
  datatype CharClass = Letters | Digits | WordChars | NonSpace

  predicate InClass(c: char, k: CharClass) {
    match k
    case Letters => IsLetter(c)
    case Digits => IsDigit(c)
    case WordChars => IsWordChar(c)
    case NonSpace => !IsSpace(c)
  }

  /** Length of the maximal run of class-`k` characters starting at `i` (a greedy `k+`). */
  function RunLength(s: string, i: nat, k: CharClass): (n: nat)
    requires i <= |s|
    ensures i + n <= |s|
    ensures i + n == |s| || !InClass(s[i + n], k)
    decreases |s| - i
  {
    if i < |s| && InClass(s[i], k) then 1 + RunLength(s, i + 1, k) else 0
  }

  /** Every character of the run is of class `k`. */
  lemma {:induction false} RunLengthInClass(s: string, i: nat, k: CharClass)
    requires i <= |s|
    ensures forall j :: i <= j < i + RunLength(s, i, k) ==> InClass(s[j], k)
    decreases |s| - i
  {
    if i < |s| && InClass(s[i], k) {
      RunLengthInClass(s, i + 1, k);
    }
  }

  /** A run of class-`k` characters from `i` that ends at `m` is the maximal run. */
  lemma {:induction false} RunLengthExact(s: string, i: nat, k: CharClass, m: nat)
    requires i <= m <= |s|
    requires forall j :: i <= j < m ==> InClass(s[j], k)
    requires m == |s| || !InClass(s[m], k)
    ensures RunLength(s, i, k) == m - i
    decreases m - i
  {
    if i < m {
      RunLengthExact(s, i + 1, k, m);
    }
  }

  // ---------------------------------------------------------------------------
  // clean_text
  // ---------------------------------------------------------------------------

  /** `s.lstrip()`: drops the leading whitespace. */
  function DropSpaces(s: string): (r: string)
    ensures |r| <= |s|
    ensures r == [] || !IsSpace(r[0])
  {
    if s != [] && IsSpace(s[0]) then DropSpaces(s[1..]) else s
  }

  /** lstrip removes only a leading whitespace run and keeps the rest as it is. */
  lemma {:induction false} DropSpacesSuffix(s: string)
    ensures DropSpaces(s) == s[|s| - |DropSpaces(s)|..]
    ensures forall j :: 0 <= j < |s| - |DropSpaces(s)| ==> IsSpace(s[j])
  {
    if s != [] && IsSpace(s[0]) {
      DropSpacesSuffix(s[1..]);
      assert s[1..][|s| - 1 - |DropSpaces(s)|..] == s[|s| - |DropSpaces(s)|..];
      forall j | 0 <= j < |s| - |DropSpaces(s)| ensures IsSpace(s[j]) {
        if j > 0 { assert s[j] == s[1..][j - 1]; }
      }
    }
  }

  /** `s.rstrip()`: drops the trailing whitespace. */
  function StripRight(s: string): (r: string)
    ensures |r| <= |s|
    ensures r == [] || !IsSpace(r[|r| - 1])
  {
    if s != [] && IsSpace(s[|s| - 1]) then StripRight(s[..|s| - 1]) else s
  }

  /** rstrip removes only a trailing whitespace run and keeps the rest as it is. */
  lemma {:induction false} StripRightPrefix(s: string)
    ensures StripRight(s) == s[..|StripRight(s)|]
    ensures forall j :: |StripRight(s)| <= j < |s| ==> IsSpace(s[j])
  {
    if s != [] && IsSpace(s[|s| - 1]) {
      var p := s[..|s| - 1];
      StripRightPrefix(p);
      assert p[..|StripRight(s)|] == s[..|StripRight(s)|];
      forall j | |StripRight(s)| <= j < |s| ensures IsSpace(s[j]) {
        if j < |s| - 1 { assert s[j] == p[j]; }
      }
    }
  }

  /** `re.sub(r'\s+', ' ', s)`: every maximal whitespace run becomes one space. */
  function Collapse(s: string): (r: string)
    ensures |r| <= |s|
    decreases |s|
  {
    if s == [] then []
    else if IsSpace(s[0]) then [' '] + Collapse(DropSpaces(s[1..]))
    else [s[0]] + Collapse(s[1..])
  }

  /** `TextProcessor.clean_text`: collapse whitespace runs, then strip both ends. */
  function CleanText(s: string): (r: string)
    ensures |r| <= |s|
  {
    if s == [] then [] else StripRight(DropSpaces(Collapse(s)))
  }

  /** What clean_text promises of its output. */
  ghost predicate IsClean(r: string) {
    && (r == [] || (!IsSpace(r[0]) && !IsSpace(r[|r| - 1])))
    && (forall i :: 0 <= i < |r| && IsSpace(r[i]) ==> r[i] == ' ')
    && (forall i :: 0 <= i < |r| - 1 ==> !(r[i] == ' ' && r[i + 1] == ' '))
  }

  /** A word of `s.split()`: non-empty and free of whitespace. */
  ghost predicate IsWord(w: string) {
    w != [] && forall i :: 0 <= i < |w| ==> !IsSpace(w[i])
  }

  /** `s.split()` with no separator: the maximal runs of non-whitespace characters. */
  function Words(s: string): (ws: seq<string>)
    decreases |s|
  {
    if s == [] then []
    else if IsSpace(s[0]) then Words(s[1..])
    else
      var n := RunLength(s, 0, NonSpace);
      [s[..n]] + Words(s[n..])
  }

  /** `" ".join(ws)` */
  function JoinWords(ws: seq<string>): string {
    if ws == [] then [] else if |ws| == 1 then ws[0] else ws[0] + " " + JoinWords(ws[1..])
  }

  ghost predicate AllWords(ws: seq<string>) {
    forall i :: 0 <= i < |ws| ==> IsWord(ws[i])
  }

  lemma {:induction false} JoinWordsClean(ws: seq<string>)
    requires AllWords(ws)
    ensures IsClean(JoinWords(ws))
    ensures ws != [] ==> JoinWords(ws) != []
  {
    if |ws| >= 2 {
      var w, rest := ws[0], JoinWords(ws[1..]);
      assert AllWords(ws[1..]) by {
        forall i | 0 <= i < |ws[1..]| ensures IsWord(ws[1..][i]) { assert ws[1..][i] == ws[i + 1]; }
      }
      JoinWordsClean(ws[1..]);
      var r := w + " " + rest;
      assert IsWord(ws[0]);
      assert r == JoinWords(ws);
      forall i | 0 <= i < |r| && IsSpace(r[i]) ensures r[i] == ' ' {
        if i > |w| { assert r[i] == rest[i - |w| - 1]; }
      }
      forall i | 0 <= i < |r| - 1 ensures !(r[i] == ' ' && r[i + 1] == ' ') {
        if i < |w| - 1 {
        } else if i == |w| - 1 {
          assert r[i] == w[|w| - 1];
        } else if i == |w| {
          assert r[i + 1] == rest[0];
        } else {
          assert r[i] == rest[i - |w| - 1] && r[i + 1] == rest[i - |w|];
        }
      }
      assert r[|r| - 1] == rest[|rest| - 1];
    } else if |ws| == 1 {
      assert IsWord(ws[0]);
    }
  }

  lemma DropSpacesNoOp(s: string)
    requires s == [] || !IsSpace(s[0])
    ensures DropSpaces(s) == s
  {
  }

  lemma StripRightNoOp(s: string)
    requires s == [] || !IsSpace(s[|s| - 1])
    ensures StripRight(s) == s
  {
  }

  /** Leading whitespace does not change the words. */
  lemma {:induction false} WordsSkip(s: string)
    ensures Words(s) == Words(DropSpaces(s))
  {
    if s != [] && IsSpace(s[0]) {
      WordsSkip(s[1..]);
    }
  }

  /** A string that starts with a word splits into that word and the words of what follows. */
  lemma WordsStep(t: string)
    requires t != [] && !IsSpace(t[0])
    ensures Words(t) == [t[..RunLength(t, 0, NonSpace)]] + Words(t[RunLength(t, 0, NonSpace)..])
  {
  }

  lemma AllWordsCons(w: string, ws: seq<string>)
    requires IsWord(w) && AllWords(ws)
    ensures AllWords([w] + ws)
  {
    forall i | 0 <= i < |[w] + ws| ensures IsWord(([w] + ws)[i]) {
      if i > 0 { assert ([w] + ws)[i] == ws[i - 1]; }
    }
  }

  lemma AllWordsTail(ws: seq<string>)
    requires ws != [] && AllWords(ws)
    ensures IsWord(ws[0]) && AllWords(ws[1..])
  {
    forall i | 0 <= i < |ws[1..]| ensures IsWord(ws[1..][i]) { assert ws[1..][i] == ws[i + 1]; }
  }

  /** The first word of a string that starts with a non-space character. */
  lemma FirstWord(t: string)
    requires t != [] && !IsSpace(t[0])
    ensures 1 <= RunLength(t, 0, NonSpace)
    ensures IsWord(t[..RunLength(t, 0, NonSpace)])
  {
    RunLengthInClass(t, 0, NonSpace);
  }

  /** Every element of `s.split()` is a non-empty run without whitespace. */
  lemma {:induction false} WordsAreWords(s: string)
    ensures AllWords(Words(s))
    decreases |s|
  {
    if s != [] {
      if IsSpace(s[0]) {
        WordsAreWords(s[1..]);
      } else {
        var n := RunLength(s, 0, NonSpace);
        FirstWord(s);
        WordsAreWords(s[n..]);
        AllWordsCons(s[..n], Words(s[n..]));
      }
    }
  }

  /** Collapsing a word followed by anything keeps the word and collapses the rest. */
  lemma {:induction false} CollapseWord(t: string, n: nat)
    requires n <= |t|
    requires forall j :: 0 <= j < n ==> !IsSpace(t[j])
    ensures Collapse(t) == t[..n] + Collapse(t[n..])
  {
    if n > 0 {
      CollapseWord(t[1..], n - 1);
      assert t[1..][n - 1..] == t[n..];
      assert t[..n] == [t[0]] + t[1..][..n - 1];
    }
  }

  /** One space when `t` ends in whitespace, otherwise nothing. */
  function TrailingSpace(t: string): string {
    if t != [] && IsSpace(t[|t| - 1]) then " " else ""
  }

  /**
   * Collapsing a string that does not start with whitespace gives its words joined by
   * single spaces, plus one space when it ends in whitespace after some word.
   */
  lemma {:induction false} CollapseIsJoin(t: string)
    requires t == [] || !IsSpace(t[0])
    ensures Collapse(t) == JoinWords(Words(t)) + TrailingSpace(t)
    decreases |t|, 1
  {
    if t != [] {
      var n := RunLength(t, 0, NonSpace);
      var w, rest := t[..n], t[n..];
      assert Words(t) == [w] + Words(rest) by { WordsStep(t); }
      assert Collapse(t) == w + Collapse(rest) by {
        RunLengthInClass(t, 0, NonSpace);
        CollapseWord(t, n);
      }
      if rest == [] {
        assert Words(rest) == [];
        assert Words(t) == [w];
        assert !IsSpace(t[|t| - 1]) by {
          RunLengthInClass(t, 0, NonSpace);
          assert n == |t|;
        }
        assert TrailingSpace(t) == "";
      } else {
        CollapseGap(t, n);
      }
    }
  }

  /** Past the first word: a whitespace run, collapsed to one space, then the rest `u`. */
  lemma GapCollapse(t: string, n: nat)
    requires n == RunLength(t, 0, NonSpace) && n < |t|
    ensures IsSpace(t[n])
    ensures Collapse(t[n..]) == " " + Collapse(DropSpaces(t[n + 1..]))
    ensures Words(t[n..]) == Words(DropSpaces(t[n + 1..]))
  {
    var rest := t[n..];
    assert rest[1..] == t[n + 1..];
    assert !InClass(t[n], NonSpace);
    WordsSkip(rest);
  }

  /** The last character of `t` is whitespace when nothing follows the gap, else it is the last of `u`. */
  lemma GapLast(t: string, n: nat)
    requires n < |t| && IsSpace(t[n])
    ensures var u := DropSpaces(t[n + 1..]);
            && (u == [] ==> IsSpace(t[|t| - 1]))
            && (u != [] ==> t[|t| - 1] == u[|u| - 1])
  {
    var v := t[n + 1..];
    DropSpacesSuffix(v);
    if |v| > 0 {
      assert t[|t| - 1] == v[|v| - 1];
    }
  }

  /** The step of CollapseIsJoin past the first word and the whitespace run after it. */
  lemma {:induction false} CollapseGap(t: string, n: nat)
    requires t != [] && !IsSpace(t[0])
    requires n == RunLength(t, 0, NonSpace) && n < |t|
    requires Words(t) == [t[..n]] + Words(t[n..])
    requires Collapse(t) == t[..n] + Collapse(t[n..])
    ensures Collapse(t) == JoinWords(Words(t)) + TrailingSpace(t)
    decreases |t|, 0
  {
    var w := t[..n];
    var u := DropSpaces(t[n + 1..]);
    GapCollapse(t, n);
    var ws := Words(u);
    assert Collapse(u) == JoinWords(ws) + TrailingSpace(u) by {
      CollapseIsJoin(u);
    }
    assert Words(t) == [w] + ws;
    assert Collapse(t) == w + (" " + (JoinWords(ws) + TrailingSpace(u)));
    if u == [] {
      assert ws == [];
      assert TrailingSpace(t) == " " by { GapLast(t, n); }
    } else {
      assert ws != [] by { WordsStep(u); }
      assert JoinWords([w] + ws) == w + " " + JoinWords(ws) by {
        assert ([w] + ws)[1..] == ws;
      }
      assert TrailingSpace(t) == TrailingSpace(u) by { GapLast(t, n); }
      Assoc(w, " ", JoinWords(ws), TrailingSpace(u));
    }
  }

  lemma Assoc(a: string, b: string, c: string, d: string)
    ensures a + (b + (c + d)) == a + b + c + d
  {
  }

  lemma CleanLeadingSpace(body: string)
    requires body == [] || !IsSpace(body[0])
    ensures DropSpaces(" " + body) == body
  {
    assert (" " + body)[1..] == body;
    DropSpacesNoOp(body);
  }

  /** clean_text is `" ".join(s.split())`: the words of the input joined by single spaces. */
  lemma CleanTextIsJoinOfWords(s: string)
    ensures CleanText(s) == JoinWords(Words(s))
  {
    if s != [] {
      var t := DropSpaces(s);
      WordsSkip(s);
      CollapsedBody(s);
      StripTrailingSpace(JoinWords(Words(t)), TrailingSpace(t));
    }
  }

  /** Collapsing and left-stripping give the words joined by single spaces, plus the trailing space if any. */
  lemma CollapsedBody(s: string)
    requires s != []
    ensures var t := DropSpaces(s);
            && IsClean(JoinWords(Words(t)))
            && (JoinWords(Words(t)) == [] ==> TrailingSpace(t) == "")
            && DropSpaces(Collapse(s)) == JoinWords(Words(t)) + TrailingSpace(t)
  {
    var t := DropSpaces(s);
    var ws := Words(t);
    var j := JoinWords(ws);
    assert IsClean(j) && (ws != [] ==> j != []) by {
      WordsAreWords(t);
      JoinWordsClean(ws);
    }
    var tail := TrailingSpace(t);
    var body := j + tail;
    assert Collapse(t) == body by { CollapseIsJoin(t); }
    assert j == [] ==> tail == "" by {
      if t != [] { WordsStep(t); }
    }
    if IsSpace(s[0]) {
      assert DropSpaces(s[1..]) == t;
      assert Collapse(s) == " " + body;
      CleanLeadingSpace(body);
    } else {
      assert t == s by { DropSpacesNoOp(s); }
      assert ws != [] by { WordsStep(t); }
      DropSpacesNoOp(body);
    }
  }

  /** Right-stripping a clean text followed by at most one space gives the clean text. */
  lemma StripTrailingSpace(j: string, tail: string)
    requires IsClean(j) && (tail == "" || tail == " ") && (j == [] ==> tail == "")
    ensures StripRight(j + tail) == j
  {
    var body := j + tail;
    StripRightNoOp(j);
    if tail == " " {
      assert body[..|body| - 1] == j;
    } else {
      assert body == j;
    }
  }

  /** clean_text's output has no whitespace at either end, no whitespace other than single spaces. */
  lemma CleanTextIsClean(s: string)
    ensures IsClean(CleanText(s))
  {
    CleanTextIsJoinOfWords(s);
    WordsAreWords(s);
    JoinWordsClean(Words(s));
  }

  /** A word followed by a space and more: the first word is exactly that word. */
  lemma JoinFirstWord(w: string, rest: string)
    requires IsWord(w)
    ensures RunLength(w + " " + rest, 0, NonSpace) == |w|
  {
    var j := w + " " + rest;
    forall m | 0 <= m < |w| ensures InClass(j[m], NonSpace) { assert j[m] == w[m]; }
    assert j[|w|] == ' ';
    RunLengthExact(j, 0, NonSpace, |w|);
  }

  /** A word, a space and a text that starts with a word split into that word and the words of the text. */
  lemma WordsOfJoinStep(w: string, rest: string)
    requires IsWord(w) && rest != [] && !IsSpace(rest[0])
    ensures Words(w + " " + rest) == [w] + Words(rest)
  {
    var j := w + " " + rest;
    JoinFirstWord(w, rest);
    assert Words(j) == [w] + Words(j[|w|..]) by {
      WordsStep(j);
      assert j[..|w|] == w;
    }
    assert Words(j[|w|..]) == Words(rest) by {
      assert j[|w|..] == " " + rest;
      CleanLeadingSpace(rest);
      WordsSkip(j[|w|..]);
    }
  }

  /** Splitting words joined by single spaces gives the words back. */
  lemma {:induction false} WordsOfJoin(ws: seq<string>)
    requires AllWords(ws)
    ensures Words(JoinWords(ws)) == ws
  {
    if ws != [] {
      AllWordsTail(ws);
      var w := ws[0];
      if |ws| == 1 {
        assert JoinWords(ws) == w;
        assert RunLength(w, 0, NonSpace) == |w| by {
          RunLengthExact(w, 0, NonSpace, |w|);
        }
        assert Words(w) == [w] + Words([]) by {
          WordsStep(w);
          assert w[..|w|] == w && w[|w|..] == [];
        }
        assert ws == [w];
      } else {
        var rest := JoinWords(ws[1..]);
        assert Words(rest) == ws[1..] by { WordsOfJoin(ws[1..]); }
        assert IsClean(rest) && rest != [] by { JoinWordsClean(ws[1..]); }
        assert JoinWords(ws) == w + " " + rest;
        WordsOfJoinStep(w, rest);
        assert ws == [w] + ws[1..];
      }
    }
  }

  /** Cleaning an already cleaned text changes nothing. */
  lemma CleanTextIdempotent(s: string)
    ensures CleanText(CleanText(s)) == CleanText(s)
  {
    CleanTextIsJoinOfWords(s);
    CleanTextIsJoinOfWords(CleanText(s));
    WordsAreWords(s);
    WordsOfJoin(Words(s));
  }

  /** A collapsed string changes nothing when collapsed again. */
  lemma {:induction false} CollapseNoOp(r: string)
    requires forall i :: 0 <= i < |r| && IsSpace(r[i]) ==> r[i] == ' '
    requires forall i :: 0 <= i < |r| - 1 ==> !(r[i] == ' ' && r[i + 1] == ' ')
    ensures Collapse(r) == r
    decreases |r|
  {
    if r != [] {
      var t := r[1..];
      assert forall i :: 0 <= i < |t| && IsSpace(t[i]) ==> t[i] == ' ' by {
        forall i | 0 <= i < |t| && IsSpace(t[i]) ensures t[i] == ' ' { assert t[i] == r[i + 1]; }
      }
      assert forall i :: 0 <= i < |t| - 1 ==> !(t[i] == ' ' && t[i + 1] == ' ') by {
        forall i | 0 <= i < |t| - 1 ensures !(t[i] == ' ' && t[i + 1] == ' ') {
          assert t[i] == r[i + 1] && t[i + 1] == r[i + 2];
        }
      }
      CollapseNoOp(t);
      if IsSpace(r[0]) {
        assert t == [] || !IsSpace(t[0]) by {
          if t != [] { assert r[0] == ' ' && t[0] == r[1]; }
        }
        DropSpacesNoOp(t);
      }
      assert r == [r[0]] + t;
    }
  }

  /** A clean text is a fixed point of clean_text. */
  lemma CleanTextOfClean(r: string)
    requires IsClean(r)
    ensures CleanText(r) == r
  {
    CollapseNoOp(r);
    DropSpacesNoOp(r);
    StripRightNoOp(r);
  }

  /** Padding a clean non-empty text with one space on each side is undone by clean_text. */
  lemma CleanTextPadded(c: string)
    requires IsClean(c) && c != []
    ensures CleanText(" " + c + " ") == c
  {
    var s := " " + c + " ";
    forall i | 0 <= i < |s| && IsSpace(s[i]) ensures s[i] == ' ' {
      if 0 < i < |s| - 1 { assert s[i] == c[i - 1]; }
    }
    forall i | 0 <= i < |s| - 1 ensures !(s[i] == ' ' && s[i + 1] == ' ') {
      if 0 < i < |s| - 2 { assert s[i] == c[i - 1] && s[i + 1] == c[i]; }
      else if i == 0 { assert s[1] == c[0]; }
      else { assert s[i] == c[|c| - 1]; }
    }
    CollapseNoOp(s);
    assert s[1..] == c + " ";
    DropSpacesNoOp(c + " ");
    assert (c + " ")[..|c|] == c;
    StripRightNoOp(c);
  }

  // ---------------------------------------------------------------------------
  // extract_keywords
  // ---------------------------------------------------------------------------

  /** `re.findall(r'\b\w+\b', s)`: the maximal runs of word characters, left to right. */
  function Tokens(s: string): seq<string>
    decreases |s|
  {
    if s == [] then []
    else if !IsWordChar(s[0]) then Tokens(s[1..])
    else
      var n := RunLength(s, 0, WordChars);
      [s[..n]] + Tokens(s[n..])
  }

  /** A token: a non-empty run of word characters. */
  ghost predicate IsToken(w: string) {
    w != [] && forall i :: 0 <= i < |w| ==> IsWordChar(w[i])
  }

  /** Every token is a non-empty run of word characters, each taken from the text. */
  lemma {:induction false} TokensAreWordRuns(s: string)
    ensures forall i :: 0 <= i < |Tokens(s)| ==> IsToken(Tokens(s)[i])
    ensures forall i, j :: 0 <= i < |Tokens(s)| && 0 <= j < |Tokens(s)[i]| ==> Tokens(s)[i][j] in s
    decreases |s|
  {
    if s != [] {
      if !IsWordChar(s[0]) {
        TokensAreWordRuns(s[1..]);
        forall i, j | 0 <= i < |Tokens(s)| && 0 <= j < |Tokens(s)[i]| ensures Tokens(s)[i][j] in s {
          assert Tokens(s)[i][j] in s[1..];
        }
      } else {
        var n := RunLength(s, 0, WordChars);
        var rest := Tokens(s[n..]);
        RunLengthInClass(s, 0, WordChars);
        TokensAreWordRuns(s[n..]);
        assert Tokens(s) == [s[..n]] + rest;
        forall i | 0 <= i < |Tokens(s)| ensures IsToken(Tokens(s)[i]) {
          if i > 0 { assert Tokens(s)[i] == rest[i - 1]; }
        }
        forall i, j | 0 <= i < |Tokens(s)| && 0 <= j < |Tokens(s)[i]| ensures Tokens(s)[i][j] in s {
          if i > 0 {
            assert Tokens(s)[i] == rest[i - 1];
            assert rest[i - 1][j] in s[n..];
          } else {
            assert Tokens(s)[i][j] == s[j];
          }
        }
      }
    }
  }

  /** Tokens joined by single spaces are found again, one by one: the runs are maximal. */
  lemma {:induction false} TokensOfJoin(ws: seq<string>)
    requires forall i :: 0 <= i < |ws| ==> IsToken(ws[i])
    ensures Tokens(JoinWords(ws)) == ws
  {
    if ws != [] {
      var w := ws[0];
      var j := JoinWords(ws);
      assert IsToken(w);
      if |ws| == 1 {
        assert j == w;
        assert RunLength(j, 0, WordChars) == |w| by {
          RunLengthExact(j, 0, WordChars, |w|);
        }
        assert j[..|w|] == w && j[|w|..] == [];
        assert ws == [w];
      } else {
        var rest := JoinWords(ws[1..]);
        assert Tokens(rest) == ws[1..] by {
          forall i | 0 <= i < |ws[1..]| ensures IsToken(ws[1..][i]) { assert ws[1..][i] == ws[i + 1]; }
          TokensOfJoin(ws[1..]);
        }
        assert j == w + " " + rest;
        assert RunLength(j, 0, WordChars) == |w| by {
          forall m | 0 <= m < |w| ensures InClass(j[m], WordChars) { assert j[m] == w[m]; }
          assert j[|w|] == ' ';
          RunLengthExact(j, 0, WordChars, |w|);
        }
        assert Tokens(j) == [w] + Tokens(j[|w|..]) by {
          assert j[..|w|] == w;
        }
        assert j[|w|..] == " " + rest;
        assert (" " + rest)[1..] == rest;
        assert ws == [w] + ws[1..];
      }
    }
  }

  /** The stop words extract_keywords drops. */
  const StopWords: set<string> := {
    "the", "is", "at", "which", "on", "a", "an", "as", "are",
    "was", "were", "been", "be", "have", "has", "had", "do",
    "does", "did", "will", "would", "should", "could", "may",
    "might", "must", "can", "this", "that", "these", "those"
  }

  predicate Qualifies(w: string, minLength: int) {
    |w| >= minLength && w !in StopWords
  }

  /** `[w for w in ws if len(w) >= min_length and w not in stop_words]` */
  function Qualifying(ws: seq<string>, minLength: int): (r: seq<string>)
    ensures forall i :: 0 <= i < |r| ==> r[i] in ws && Qualifies(r[i], minLength)
    ensures forall i :: 0 <= i < |ws| && Qualifies(ws[i], minLength) ==> ws[i] in r
  {
    if ws == [] then []
    else (if Qualifies(ws[0], minLength) then [ws[0]] else []) + Qualifying(ws[1..], minLength)
  }

  /** The words extract_keywords counts, in text order and with repetitions. */
  function Candidates(text: string, minLength: int): seq<string> {
    Qualifying(Tokens(LowerStr(text)), minLength)
  }

  /** Position of the first occurrence of `w` in `ks`, or `|ks|` when there is none. */
  function FirstIndex(ks: seq<string>, w: string): (i: nat)
    ensures i <= |ks|
    ensures i < |ks| <==> w in ks
    ensures i < |ks| ==> ks[i] == w
  {
    if ks == [] then 0 else if ks[0] == w then 0 else 1 + FirstIndex(ks[1..], w)
  }

  lemma {:induction false} FirstIndexAppend(p: seq<string>, x: string, w: string)
    requires w in p || w == x
    ensures FirstIndex(p + [x], w) == if w in p then FirstIndex(p, w) else |p|
  {
    if p != [] {
      assert (p + [x])[1..] == p[1..] + [x];
      if p[0] != w {
        FirstIndexAppend(p[1..], x, w);
      }
    }
  }

  /** The keys of `Counter(ks)` in insertion order: each distinct word at its first occurrence. */
  function Distinct(ks: seq<string>): (d: seq<string>)
    ensures forall w :: w in d <==> w in ks
  {
    if ks == [] then []
    else
      var p := ks[..|ks| - 1];
      assert ks == p + [ks[|ks| - 1]];
      var d := Distinct(p);
      if ks[|ks| - 1] in d then d else d + [ks[|ks| - 1]]
  }

  /** Counter keys come in order of first occurrence, which makes them distinct. */
  lemma {:induction false} DistinctOrdered(ks: seq<string>)
    ensures forall i, j :: 0 <= i < j < |Distinct(ks)| ==>
              FirstIndex(ks, Distinct(ks)[i]) < FirstIndex(ks, Distinct(ks)[j])
  {
    if ks != [] {
      var x := ks[|ks| - 1];
      var p := ks[..|ks| - 1];
      assert ks == p + [x];
      DistinctOrdered(p);
      var d := Distinct(ks);
      forall i, j | 0 <= i < j < |d| ensures FirstIndex(ks, d[i]) < FirstIndex(ks, d[j]) {
        var dp := Distinct(p);
        assert d[i] in p by { assert d[i] == dp[i]; }
        FirstIndexAppend(p, x, d[i]);
        FirstIndexAppend(p, x, d[j]);
        if j < |dp| {
          assert d[i] == dp[i] && d[j] == dp[j];
        }
      }
    }
  }

  /** `Counter(ks)[w]` */
  function Count(ks: seq<string>, w: string): nat {
    multiset(ks)[w]
  }

  /** `Counter(ks).items()`: each distinct word with its number of occurrences. */
  function Items(ks: seq<string>): (r: seq<Ranked<string>>)
    ensures |r| == |Distinct(ks)|
    ensures forall i :: 0 <= i < |r| ==> r[i].item == Distinct(ks)[i]
  {
    var d := Distinct(ks);
    seq(|d|, i requires 0 <= i < |d| => Ranked(d[i], Count(ks, d[i]) as real))
  }

  /** `[word for word, count in Counter(ks).most_common()]` */
  function MostCommon(ks: seq<string>): (r: seq<string>)
    ensures |r| == |Distinct(ks)|
  {
    var sorted := SortDesc(Items(ks));
    seq(|sorted|, i requires 0 <= i < |sorted| => sorted[i].item)
  }

  /** `TextProcessor.extract_keywords` */
  function ExtractKeywords(text: string, minLength: int): seq<string> {
    MostCommon(Candidates(text, minLength))
  }

  /** An entry of the most_common list is a Counter item, scored by its count. */
  lemma MostCommonEntry(ks: seq<string>, i: nat)
    requires i < |SortDesc(Items(ks))|
    ensures SortDesc(Items(ks))[i].item in ks
    ensures SortDesc(Items(ks))[i].score == Count(ks, SortDesc(Items(ks))[i].item) as real
  {
    var e := SortDesc(Items(ks))[i];
    assert e in multiset(Items(ks));
    var m :| 0 <= m < |Items(ks)| && Items(ks)[m] == e;
    assert e.item == Distinct(ks)[m];
  }

  /** most_common lists exactly the counted words. */
  lemma MostCommonMembers(ks: seq<string>)
    ensures forall w :: w in MostCommon(ks) <==> w in ks
  {
    forall w | w in ks ensures w in MostCommon(ks) {
      MostCommonHas(ks, w);
    }
    forall w | w in MostCommon(ks) ensures w in ks {
      var r := MostCommon(ks);
      var k :| 0 <= k < |r| && r[k] == w;
      MostCommonEntry(ks, k);
    }
  }

  /** Every counted word is listed. */
  lemma MostCommonHas(ks: seq<string>, w: string)
    requires w in ks
    ensures w in MostCommon(ks)
  {
    var items := Items(ks);
    var sorted := SortDesc(items);
    var m :| 0 <= m < |Distinct(ks)| && Distinct(ks)[m] == w;
    assert items[m] in multiset(items);
    assert items[m] in multiset(sorted);
    var k :| 0 <= k < |sorted| && sorted[k] == items[m];
    assert MostCommon(ks)[k] == w;
  }

  /** most_common lists the words by non-increasing count, ties in first-occurrence order, each once. */
  lemma MostCommonOrder(ks: seq<string>)
    ensures forall i, j :: 0 <= i < j < |MostCommon(ks)| ==>
              && Count(ks, MostCommon(ks)[i]) >= Count(ks, MostCommon(ks)[j])
              && (Count(ks, MostCommon(ks)[i]) == Count(ks, MostCommon(ks)[j]) ==>
                    FirstIndex(ks, MostCommon(ks)[i]) < FirstIndex(ks, MostCommon(ks)[j]))
    ensures forall i, j :: 0 <= i < j < |MostCommon(ks)| ==> MostCommon(ks)[i] != MostCommon(ks)[j]
  {
    var items := Items(ks);
    var sorted := SortDesc(items);
    var r := MostCommon(ks);
    var g := w => FirstIndex(ks, w);
    assert TiesOrderedBy(sorted, g) by {
      DistinctOrdered(ks);
      assert forall i, j :: 0 <= i < j < |items| ==> g(items[i].item) < g(items[j].item);
      SortDescTiesOrdered(items, g);
    }
    assert SortedDesc(sorted) by { SortDescSorted(items); }
    forall i, j | 0 <= i < j < |r|
      ensures Count(ks, r[i]) >= Count(ks, r[j])
      ensures Count(ks, r[i]) == Count(ks, r[j]) ==> FirstIndex(ks, r[i]) < FirstIndex(ks, r[j])
      ensures r[i] != r[j]
    {
      MostCommonEntry(ks, i);
      MostCommonEntry(ks, j);
      assert r[i] == sorted[i].item && r[j] == sorted[j].item;
      assert sorted[i].score >= sorted[j].score;
      if Count(ks, r[i]) == Count(ks, r[j]) {
        assert g(sorted[i].item) < g(sorted[j].item);
      }
    }
  }

  /** Every keyword is a lower-case token of the text, at least `minLength` long and not a stop word. */
  lemma KeywordsQualify(text: string, minLength: int)
    ensures forall i :: 0 <= i < |ExtractKeywords(text, minLength)| ==>
              var w := ExtractKeywords(text, minLength)[i];
              && IsToken(w) && NoUpper(w) && |w| >= minLength && w !in StopWords
  {
    var low := LowerStr(text);
    var ks := Candidates(text, minLength);
    MostCommonMembers(ks);
    TokensAreWordRuns(low);
    forall i | 0 <= i < |ExtractKeywords(text, minLength)|
      ensures var w := ExtractKeywords(text, minLength)[i];
              IsToken(w) && NoUpper(w) && |w| >= minLength && w !in StopWords
    {
      var w := ExtractKeywords(text, minLength)[i];
      assert w in ks;
      var m :| 0 <= m < |ks| && ks[m] == w;
      assert w in Tokens(low);
      var t :| 0 <= t < |Tokens(low)| && Tokens(low)[t] == w;
      forall c | 0 <= c < |w| ensures !IsUpper(w[c]) {
        assert w[c] in low;
      }
    }
  }

  /** The keywords are exactly the distinct qualifying tokens, most frequent first, ties in text order. */
  lemma KeywordsAreDistinctByFrequency(text: string, minLength: int)
    ensures var ks := Candidates(text, minLength);
            var r := ExtractKeywords(text, minLength);
            && (forall w :: w in r <==> w in Tokens(LowerStr(text)) && Qualifies(w, minLength))
            && (forall i, j :: 0 <= i < j < |r| ==> r[i] != r[j])
            && (forall i, j :: 0 <= i < j < |r| ==>
                  && Count(ks, r[i]) >= Count(ks, r[j])
                  && (Count(ks, r[i]) == Count(ks, r[j]) ==> FirstIndex(ks, r[i]) < FirstIndex(ks, r[j])))
  {
    var ks := Candidates(text, minLength);
    MostCommonMembers(ks);
    MostCommonOrder(ks);
  }

  // ---------------------------------------------------------------------------
  // calculate_similarity
  // ---------------------------------------------------------------------------

  /** `set(extract_keywords(text))`, with the default minimum length 3. */
  function KeywordSet(text: string): set<string> {
    set i | 0 <= i < |ExtractKeywords(text, 3)| :: ExtractKeywords(text, 3)[i]
  }

  /** The empty text has no keywords. */
  lemma KeywordSetEmpty()
    ensures KeywordSet("") == {}
  {
    assert LowerStr("") == "";
    assert Candidates("", 3) == [];
    assert |ExtractKeywords("", 3)| == 0;
  }

  lemma {:induction false} SubsetCard<T>(a: set<T>, b: set<T>)
    requires a <= b
    ensures |a| <= |b|
    ensures |a| == |b| ==> a == b
  {
    if a != {} {
      var x :| x in a;
      SubsetCard(a - {x}, b - {x});
    } else if |b| == 0 {
      assert b == {};
    }
  }

  /** A ratio of naturals `x / y` with `x <= y` lies in [0, 1], and is 0 or 1 only when `x` is 0 or `y`. */
  lemma Ratio(x: nat, y: nat)
    requires 0 < y && x <= y
    ensures 0.0 <= x as real / y as real <= 1.0
    ensures x as real / y as real == 0.0 <==> x == 0
    ensures x as real / y as real == 1.0 <==> x == y
  {
    var q := x as real / y as real;
    assert q * (y as real) == x as real;
  }

  /** The Jaccard index of two sets of words, 0 when either is empty (the guards of calculate_similarity). */
  function Jaccard(a: set<string>, b: set<string>): (r: real)
    ensures 0.0 <= r <= 1.0
    ensures r == 0.0 <==> a * b == {}
    ensures r == 1.0 <==> a == b != {}
  {
    if a == {} || b == {} then 0.0
    else
      var u := a + b;
      if u == {} then 0.0
      else
        JaccardFacts(a, b);
        |a * b| as real / |u| as real
  }

  lemma JaccardFacts(a: set<string>, b: set<string>)
    requires a != {} && b != {}
    ensures 0 < |a + b| && |a * b| <= |a + b|
    ensures 0.0 <= |a * b| as real / |a + b| as real <= 1.0
    ensures |a * b| as real / |a + b| as real == 0.0 <==> a * b == {}
    ensures |a * b| as real / |a + b| as real == 1.0 <==> a == b
  {
    var x :| x in a;
    SubsetCard({x}, a + b);
    SubsetCard(a * b, a + b);
    Ratio(|a * b|, |a + b|);
    if a * b != {} {
      var y :| y in a * b;
      SubsetCard({y}, a * b);
    }
    if |a * b| == |a + b| {
      assert a == b by {
        forall z | z in a ensures z in b { assert z in a + b; }
        forall z | z in b ensures z in a { assert z in a + b; }
      }
    }
    if a == b {
      assert a * b == a + b;
    }
  }

  /** `TextProcessor.calculate_similarity`: the Jaccard index of the two keyword sets. */
  function Similarity(text1: string, text2: string): real {
    Jaccard(KeywordSet(text1), KeywordSet(text2))
  }

  /**
   * The similarity lies in [0, 1] and does not depend on the order of the texts; it is 0 exactly
   * when the texts share no keyword, and 1 exactly when they have the same non-empty keyword set.
   */
  lemma SimilarityBounds(text1: string, text2: string)
    ensures 0.0 <= Similarity(text1, text2) <= 1.0
    ensures Similarity(text1, text2) == Similarity(text2, text1)
    ensures Similarity(text1, text2) == 0.0 <==> KeywordSet(text1) * KeywordSet(text2) == {}
    ensures Similarity(text1, text2) == 1.0 <==> KeywordSet(text1) == KeywordSet(text2) != {}
  {
    var a, b := KeywordSet(text1), KeywordSet(text2);
    assert a * b == b * a && a + b == b + a;
  }

  /** An empty text is similar to nothing: its keyword set is empty. */
  lemma SimilarityEmpty(text: string)
    ensures Similarity("", text) == 0.0
  {
    KeywordSetEmpty();
  }

  // ---------------------------------------------------------------------------
  // format_response
  // ---------------------------------------------------------------------------

  /** `TextProcessor.format_response`: clean, then cut to `maxLength` characters plus "..." when longer. */
  function FormatResponse(response: string, maxLength: int): (r: string)
    ensures |CleanText(response)| <= maxLength ==> r == CleanText(response)
    ensures maxLength < |CleanText(response)| ==> r == Prefix(CleanText(response), maxLength) + "..."
    ensures 0 <= maxLength < |CleanText(response)| ==>
              |r| == maxLength + 3 && r[..maxLength] == CleanText(response)[..maxLength] && r[maxLength..] == "..."
  {
    var c := CleanText(response);
    if |c| > maxLength then Prefix(c, maxLength) + "..." else c
  }

  /** Cutting a clean text short and marking the cut with "..." leaves it clean. */
  lemma CutIsClean(c: string, n: nat)
    requires IsClean(c) && n < |c|
    ensures IsClean(c[..n] + "...")
  {
    var r := c[..n] + "...";
    forall i | 0 <= i < |r| && IsSpace(r[i]) ensures r[i] == ' ' {
      assert i < n && r[i] == c[i];
    }
    forall i | 0 <= i < |r| - 1 ensures !(r[i] == ' ' && r[i + 1] == ' ') {
      if i + 1 < n { assert r[i] == c[i] && r[i + 1] == c[i + 1]; }
    }
    if n > 0 { assert r[0] == c[0]; }
  }

  /** With a non-negative limit the output is clean and at most three characters longer than the limit. */
  lemma FormatResponseClean(response: string, maxLength: int)
    requires maxLength >= 0
    ensures IsClean(FormatResponse(response, maxLength))
    ensures |FormatResponse(response, maxLength)| <= maxLength + 3
  {
    var c := CleanText(response);
    CleanTextIsClean(response);
    if |c| > maxLength {
      CutIsClean(c, maxLength);
      assert FormatResponse(response, maxLength) == c[..maxLength] + "...";
    }
  }

  /** Formatting a formatted response again changes nothing. */
  lemma FormatResponseIdempotent(response: string, maxLength: int)
    requires maxLength >= 0
    ensures FormatResponse(FormatResponse(response, maxLength), maxLength) == FormatResponse(response, maxLength)
  {
    var r := FormatResponse(response, maxLength);
    FormatResponseClean(response, maxLength);
    CleanTextOfClean(r);
    if |CleanText(response)| > maxLength {
      assert r[..maxLength] + "..." == r;
    }
  }

  // ---------------------------------------------------------------------------
  // extract_ticket_reference
  // ---------------------------------------------------------------------------

  /** The four patterns, each searched case-insensitively. */
  datatype Pattern =
    | JiraKey       // [A-Z]+-\d+
    | HashJiraKey   // #[A-Z]+-\d+
    | TicketKey     // TICKET-\d+
    | HashNumber    // #\d+

  /** The patterns in the order extract_ticket_reference tries them. */
  const TicketPatterns: seq<Pattern> := [JiraKey, HashJiraKey, TicketKey, HashNumber]

  /**
   * Length of the match of `[A-Z]+-\d+` at `i`, 0 when there is none. Fewer letters
   * never help: the character after a shorter letter run is a letter, not '-'.
   */
  function JiraAt(s: string, i: nat): (n: nat)
    requires i <= |s|
    ensures i + n <= |s|
  {
    var l := RunLength(s, i, Letters);
    if l > 0 && i + l < |s| && s[i + l] == '-' then
      var d := RunLength(s, i + l + 1, Digits);
      if d == 0 then 0 else l + 1 + d
    else 0
  }

  /** `UpperStr(t) == u`, checked character by character. */
  predicate UpperFrom(t: string, u: string, i: nat)
    requires |t| == |u|
    decreases |t| - i
  {
    i >= |t| || (UpperChar(t[i]) == u[i] && UpperFrom(t, u, i + 1))
  }

  lemma {:induction false} UpperFromSound(t: string, u: string, i: nat)
    requires |t| == |u| && UpperFrom(t, u, i)
    ensures forall j :: i <= j < |t| ==> UpperStr(t)[j] == u[j]
    decreases |t| - i
  {
    if i < |t| {
      UpperFromSound(t, u, i + 1);
    }
  }

  /** Length of the (greedy) match of `p` at position `i`, 0 when `p` does not match there. */
  function MatchAt(p: Pattern, s: string, i: nat): (n: nat)
    requires i <= |s|
    ensures i + n <= |s|
  {
    match p
    case JiraKey => JiraAt(s, i)
    case HashJiraKey =>
      if i < |s| && s[i] == '#' then (var m := JiraAt(s, i + 1); if m == 0 then 0 else 1 + m) else 0
    case TicketKey =>
      if i + 7 <= |s| && UpperFrom(s[i..i + 6], "TICKET", 0) && s[i + 6] == '-' then
        var d := RunLength(s, i + 7, Digits);
        if d == 0 then 0 else 7 + d
      else 0
    case HashNumber =>
      if i < |s| && s[i] == '#' then (var d := RunLength(s, i + 1, Digits); if d == 0 then 0 else 1 + d) else 0
  }

  /** A match found by `re.search`: its start and its length. */
  datatype Match = Match(start: nat, len: nat)

  /** `re.search(p, s[i..])`: the leftmost position from `i` on where `p` matches. */
  function SearchFrom(p: Pattern, s: string, i: nat): (r: Option<Match>)
    requires i <= |s|
    ensures r.Some? ==> i <= r.value.start && r.value.start + r.value.len <= |s|
    decreases |s| - i
  {
    if MatchAt(p, s, i) > 0 then Some(Match(i, MatchAt(p, s, i)))
    else if i == |s| then None
    else SearchFrom(p, s, i + 1)
  }

  /** A found match is a real match of `p`, and no match starts between `i` and it. */
  lemma {:induction false} SearchFound(p: Pattern, s: string, i: nat)
    requires i <= |s| && SearchFrom(p, s, i).Some?
    ensures var m := SearchFrom(p, s, i).value;
            && 0 < m.len == MatchAt(p, s, m.start)
            && forall j :: i <= j < m.start ==> MatchAt(p, s, j) == 0
    decreases |s| - i
  {
    if MatchAt(p, s, i) == 0 {
      SearchFound(p, s, i + 1);
    }
  }

  /** When the search finds nothing, `p` matches nowhere from `i` on. */
  lemma {:induction false} SearchNone(p: Pattern, s: string, i: nat)
    requires i <= |s| && SearchFrom(p, s, i).None?
    ensures forall j :: i <= j <= |s| ==> MatchAt(p, s, j) == 0
    decreases |s| - i
  {
    if i < |s| {
      SearchNone(p, s, i + 1);
    }
  }

  /** When `p` first matches at `k` (from `i` on), the search finds exactly that match. */
  lemma {:induction false} SearchFinds(p: Pattern, s: string, i: nat, k: nat)
    requires i <= k <= |s| && MatchAt(p, s, k) > 0
    requires forall j :: i <= j < k ==> MatchAt(p, s, j) == 0
    ensures SearchFrom(p, s, i) == Some(Match(k, MatchAt(p, s, k)))
    decreases k - i
  {
    if i < k {
      assert MatchAt(p, s, i) == 0;
      SearchFinds(p, s, i + 1, k);
    }
  }

  /** When `p` matches nowhere from `i` on, the search finds nothing. */
  lemma {:induction false} SearchMisses(p: Pattern, s: string, i: nat)
    requires i <= |s|
    requires forall j :: i <= j <= |s| ==> MatchAt(p, s, j) == 0
    ensures SearchFrom(p, s, i) == None
    decreases |s| - i
  {
    if i < |s| {
      SearchMisses(p, s, i + 1);
    }
  }

  /** `.replace('#', '')` */
  function RemoveHash(s: string): (r: string)
    ensures |r| <= |s|
    ensures forall i :: 0 <= i < |r| ==> r[i] != '#'
    ensures s != [] && s[|s| - 1] != '#' ==> r != [] && r[|r| - 1] == s[|s| - 1]
  {
    if s == [] then [] else (if s[0] == '#' then [] else [s[0]]) + RemoveHash(s[1..])
  }

  /** The leftmost match of the first pattern of `ps` that matches anywhere in `s`. */
  function FirstMatch(ps: seq<Pattern>, s: string): (r: Option<Match>)
    ensures r.Some? ==> r.value.start + r.value.len <= |s|
  {
    if ps == [] then None
    else
      match SearchFrom(ps[0], s, 0)
      case Some(m) => Some(m)
      case None => FirstMatch(ps[1..], s)
  }

  /** The reference the patterns `ps` yield: the first match, without '#', upper-cased; "" without one. */
  function ExtractWith(ps: seq<Pattern>, s: string): string {
    match FirstMatch(ps, s)
    case Some(m) => Reference(s, m)
    case None => ""
  }

  /** `match.group(0).replace('#', '').upper()` */
  function Reference(s: string, m: Match): string
    requires m.start + m.len <= |s|
  {
    UpperStr(RemoveHash(s[m.start..m.start + m.len]))
  }

  /** `TextProcessor.extract_ticket_reference` */
  function ExtractTicketReference(text: string): string {
    ExtractWith(TicketPatterns, text)
  }

  /** Matches of the four patterns end in a digit that survives hash removal. */
  lemma MatchEndsInDigit(p: Pattern, s: string, i: nat)
    requires i <= |s| && MatchAt(p, s, i) > 0
    ensures IsDigit(s[i + MatchAt(p, s, i) - 1])
  {
    match p
    case JiraKey => JiraEndsInDigit(s, i);
    case HashJiraKey => JiraEndsInDigit(s, i + 1);
    case TicketKey => RunLengthInClass(s, i + 7, Digits);
    case HashNumber => RunLengthInClass(s, i + 1, Digits);
  }

  lemma JiraEndsInDigit(s: string, i: nat)
    requires i <= |s| && JiraAt(s, i) > 0
    ensures IsDigit(s[i + JiraAt(s, i) - 1])
  {
    var l := RunLength(s, i, Letters);
    RunLengthInClass(s, i + l + 1, Digits);
  }

  /** Nothing matches anywhere: the four patterns are absent from the text. */
  ghost predicate NoneMatch(ps: seq<Pattern>, s: string) {
    forall k, j :: 0 <= k < |ps| && 0 <= j <= |s| ==> MatchAt(ps[k], s, j) == 0
  }

  lemma NoneMatchCons(ps: seq<Pattern>, s: string)
    requires ps != []
    ensures NoneMatch(ps, s) <==> (forall j :: 0 <= j <= |s| ==> MatchAt(ps[0], s, j) == 0) && NoneMatch(ps[1..], s)
  {
    if (forall j :: 0 <= j <= |s| ==> MatchAt(ps[0], s, j) == 0) && NoneMatch(ps[1..], s) {
      forall k, j | 0 <= k < |ps| && 0 <= j <= |s| ensures MatchAt(ps[k], s, j) == 0 {
        if k > 0 { assert ps[k] == ps[1..][k - 1]; }
      }
    }
    if NoneMatch(ps, s) {
      forall k, j | 0 <= k < |ps[1..]| && 0 <= j <= |s| ensures MatchAt(ps[1..][k], s, j) == 0 {
        assert ps[1..][k] == ps[k + 1];
      }
    }
  }

  /** A match ending in a digit yields a non-empty reference: the digit survives. */
  lemma ReferenceNonEmpty(s: string, m: Match)
    requires 0 < m.len && m.start + m.len <= |s| && IsDigit(s[m.start + m.len - 1])
    ensures |Reference(s, m)| > 0
  {
    var t := s[m.start..m.start + m.len];
    assert t[|t| - 1] == s[m.start + m.len - 1];
    assert |RemoveHash(t)| > 0;
  }

  /** The match that decides is a real match of one of the patterns, so it ends in a digit. */
  lemma {:induction false} FirstMatchEndsInDigit(ps: seq<Pattern>, s: string)
    requires FirstMatch(ps, s).Some?
    ensures var m := FirstMatch(ps, s).value;
            0 < m.len && IsDigit(s[m.start + m.len - 1])
  {
    if SearchFrom(ps[0], s, 0).Some? {
      var m := SearchFrom(ps[0], s, 0).value;
      ExtractFirst(ps, s, m);
      SearchFound(ps[0], s, 0);
      MatchEndsInDigit(ps[0], s, m.start);
    } else {
      ExtractNext(ps, s);
      FirstMatchEndsInDigit(ps[1..], s);
    }
  }

  /** No pattern decides exactly when none of them occurs anywhere in the text. */
  lemma {:induction false} FirstMatchNoneIff(ps: seq<Pattern>, s: string)
    ensures FirstMatch(ps, s).None? <==> NoneMatch(ps, s)
  {
    if ps != [] {
      NoneMatchCons(ps, s);
      if SearchFrom(ps[0], s, 0).Some? {
        var m := SearchFrom(ps[0], s, 0).value;
        ExtractFirst(ps, s, m);
        SearchFound(ps[0], s, 0);
        assert MatchAt(ps[0], s, m.start) > 0;
      } else {
        SearchNone(ps[0], s, 0);
        ExtractNext(ps, s);
        FirstMatchNoneIff(ps[1..], s);
      }
    }
  }

  /** A reference is extracted exactly when some pattern decides. */
  lemma ExtractEmptyIffNoMatch(ps: seq<Pattern>, s: string)
    ensures ExtractWith(ps, s) == "" <==> FirstMatch(ps, s).None?
  {
    match FirstMatch(ps, s)
    case Some(m) =>
      FirstMatchEndsInDigit(ps, s);
      ReferenceNonEmpty(s, m);
      assert ExtractWith(ps, s) == Reference(s, m);
    case None =>
  }

  /** No reference is extracted exactly when none of the patterns occurs anywhere in the text. */
  lemma ExtractEmptyIff(ps: seq<Pattern>, s: string)
    ensures ExtractWith(ps, s) == "" <==> NoneMatch(ps, s)
  {
    ExtractEmptyIffNoMatch(ps, s);
    FirstMatchNoneIff(ps, s);
  }

  /** The extracted reference has no lower-case letter and no '#'. */
  lemma ExtractIsUpper(ps: seq<Pattern>, s: string)
    ensures NoLower(ExtractWith(ps, s))
    ensures forall i :: 0 <= i < |ExtractWith(ps, s)| ==> ExtractWith(ps, s)[i] != '#'
  {
    match FirstMatch(ps, s)
    case Some(m) =>
      var t := RemoveHash(s[m.start..m.start + m.len]);
      UpperStrHasNoLower(t);
    case None =>
  }

  /** A match of `#[A-Z]+-\d+` at `i` carries a match of `[A-Z]+-\d+` at `i + 1`. */
  lemma HashJiraHasJira(s: string, i: nat)
    requires i <= |s| && MatchAt(HashJiraKey, s, i) > 0
    ensures i + 1 <= |s| && MatchAt(JiraKey, s, i + 1) > 0
  {
  }

  /** A match of `TICKET-\d+` at `i` is also a match of `[A-Z]+-\d+` at `i`. */
  lemma TicketHasJira(s: string, i: nat)
    requires i <= |s| && MatchAt(TicketKey, s, i) > 0
    ensures MatchAt(JiraKey, s, i) > 0
  {
    var t := s[i..i + 6];
    UpperFromSound(t, "TICKET", 0);
    forall j | i <= j < i + 6 ensures IsLetter(s[j]) {
      assert UpperChar(t[j - i]) == "TICKET"[j - i];
      assert IsUpper("TICKET"[j - i]);
    }
    assert !IsLetter(s[i + 6]);
    RunLengthExact(s, i, Letters, i + 6);
  }

  /** Without a `[A-Z]+-\d+` match there is no `#[A-Z]+-\d+` or `TICKET-\d+` match either. */
  lemma NoKeyNoOthers(s: string)
    requires SearchFrom(JiraKey, s, 0).None?
    ensures SearchFrom(HashJiraKey, s, 0).None? && SearchFrom(TicketKey, s, 0).None?
  {
    SearchNone(JiraKey, s, 0);
    forall j | 0 <= j <= |s| ensures MatchAt(HashJiraKey, s, j) == 0 {
      if MatchAt(HashJiraKey, s, j) > 0 {
        HashJiraHasJira(s, j);
      }
    }
    SearchMisses(HashJiraKey, s, 0);
    forall j | 0 <= j <= |s| ensures MatchAt(TicketKey, s, j) == 0 {
      if MatchAt(TicketKey, s, j) > 0 {
        TicketHasJira(s, j);
      }
    }
    SearchMisses(TicketKey, s, 0);
  }

  /**
   * The hash-prefixed and TICKET patterns are never the deciding ones: whenever either
   * occurs, the first pattern occurs as well. Extraction therefore reduces to the first
   * pattern, then `#\d+`.
   */
  lemma ExtractReduces(s: string)
    ensures FirstMatch(TicketPatterns, s) == FirstMatch([JiraKey, HashNumber], s)
  {
    var ps := TicketPatterns;
    assert ps[1..] == [HashJiraKey, TicketKey, HashNumber];
    assert ps[1..][1..] == [TicketKey, HashNumber];
    assert ps[1..][1..][1..] == [HashNumber];
    assert [JiraKey, HashNumber][1..] == [HashNumber];
    var a := SearchFrom(JiraKey, s, 0);
    if a.Some? {
      ExtractFirst(ps, s, a.value);
      ExtractFirst([JiraKey, HashNumber], s, a.value);
    } else {
      NoKeyNoOthers(s);
      ExtractNext(ps, s);
      ExtractNext(ps[1..], s);
      ExtractNext(ps[1..][1..], s);
      ExtractNext([JiraKey, HashNumber], s);
    }
  }


  /** `KEY-123`: upper-case letters, a dash, digits. */
  ghost predicate IsKeyReference(r: string) {
    exists l :: KeyReferenceAt(r, l)
  }

  /** `r` is a key reference whose dash is at `l`. */
  ghost predicate KeyReferenceAt(r: string, l: nat) {
    && 0 < l < |r| - 1 && r[l] == '-'
    && (forall j :: 0 <= j < l ==> IsUpper(r[j]))
    && (forall j :: l < j < |r| ==> IsDigit(r[j]))
  }

  /** `789`: digits only. */
  ghost predicate IsNumberReference(r: string) {
    r != [] && forall j :: 0 <= j < |r| ==> IsDigit(r[j])
  }

  lemma {:induction false} RemoveHashNone(t: string)
    requires forall j :: 0 <= j < |t| ==> t[j] != '#'
    ensures RemoveHash(t) == t
  {
    if t != [] {
      RemoveHashNone(t[1..]);
      assert t == [t[0]] + t[1..];
    }
  }

  /** Upper-casing keeps dashes, digits and the position of letters, which all become upper case. */
  lemma UpperShape(t: string)
    ensures forall j :: 0 <= j < |t| && IsLetter(t[j]) ==> IsUpper(UpperStr(t)[j])
    ensures forall j :: 0 <= j < |t| && !IsLower(t[j]) ==> UpperStr(t)[j] == t[j]
  {
  }

  lemma KeyHasNoHash(t: string, l: nat)
    requires 0 < l < |t| - 1 && t[l] == '-'
    requires forall j :: 0 <= j < l ==> IsLetter(t[j])
    requires forall j :: l < j < |t| ==> IsDigit(t[j])
    ensures forall j :: 0 <= j < |t| ==> t[j] != '#'
  {
    forall j | 0 <= j < |t| ensures t[j] != '#' {
      if j < l { assert IsLetter(t[j]); } else if j > l { assert IsDigit(t[j]); }
    }
  }

  lemma KeyUpper(t: string, l: nat)
    requires 0 < l < |t| - 1 && t[l] == '-'
    requires forall j :: 0 <= j < l ==> IsLetter(t[j])
    requires forall j :: l < j < |t| ==> IsDigit(t[j])
    ensures KeyReferenceAt(UpperStr(t), l)
  {
    UpperShape(t);
  }

  lemma KeyShape(t: string, l: nat)
    requires 0 < l < |t| - 1 && t[l] == '-'
    requires forall j :: 0 <= j < l ==> IsLetter(t[j])
    requires forall j :: l < j < |t| ==> IsDigit(t[j])
    ensures IsKeyReference(UpperStr(RemoveHash(t)))
  {
    KeyHasNoHash(t, l);
    RemoveHashNone(t);
    KeyUpper(t, l);
    assert KeyReferenceAt(UpperStr(RemoveHash(t)), l);
  }

  /** The reference of a `[A-Z]+-\d+` match is a key reference. */
  lemma JiraReference(s: string, i: nat)
    requires i <= |s| && JiraAt(s, i) > 0
    ensures IsKeyReference(UpperStr(RemoveHash(s[i..i + JiraAt(s, i)])))
  {
    var n := JiraAt(s, i);
    var l := RunLength(s, i, Letters);
    var t := s[i..i + n];
    assert forall j :: 0 <= j < l ==> IsLetter(t[j]) by {
      RunLengthInClass(s, i, Letters);
    }
    assert forall j :: l < j < n ==> IsDigit(t[j]) by {
      RunLengthInClass(s, i + l + 1, Digits);
    }
    KeyShape(t, l);
  }

  lemma NumberShape(t: string)
    requires 1 < |t| && t[0] == '#'
    requires forall j :: 0 < j < |t| ==> IsDigit(t[j])
    ensures IsNumberReference(UpperStr(RemoveHash(t)))
  {
    var d := t[1..];
    assert forall j :: 0 <= j < |d| ==> IsDigit(d[j]) by {
      forall j | 0 <= j < |d| ensures IsDigit(d[j]) { assert d[j] == t[j + 1]; }
    }
    assert RemoveHash(t) == d by { RemoveHashNone(d); }
    UpperShape(d);
  }

  /** The reference of a `#\d+` match is its digits. */
  lemma NumberReference(s: string, i: nat)
    requires i <= |s| && MatchAt(HashNumber, s, i) > 0
    ensures IsNumberReference(UpperStr(RemoveHash(s[i..i + MatchAt(HashNumber, s, i)])))
  {
    var n := MatchAt(HashNumber, s, i);
    var t := s[i..i + n];
    assert forall j :: 0 < j < n ==> IsDigit(t[j]) by {
      RunLengthInClass(s, i + 1, Digits);
    }
    NumberShape(t);
  }

  /** Whenever `[A-Z]+-\d+` matches, its leftmost match is the reference, a key reference. */
  lemma KeyDecides(s: string)
    requires SearchFrom(JiraKey, s, 0).Some?
    ensures IsKeyReference(ExtractTicketReference(s))
  {
    var a := SearchFrom(JiraKey, s, 0).value;
    SearchFound(JiraKey, s, 0);
    JiraReference(s, a.start);
    ExtractByKey(s, a, Reference(s, a));
  }

  /** Otherwise the leftmost `#\d+` match decides, and the reference is its digits. */
  lemma NumberDecides(s: string)
    requires SearchFrom(JiraKey, s, 0).None? && SearchFrom(HashNumber, s, 0).Some?
    ensures IsNumberReference(ExtractTicketReference(s))
  {
    var b := SearchFrom(HashNumber, s, 0).value;
    SearchFound(HashNumber, s, 0);
    NumberReference(s, b.start);
    ExtractByNumber(s, b, Reference(s, b));
  }

  /** What extract_ticket_reference returns: nothing, a `KEY-123` reference, or the digits of a `#789`. */
  lemma ExtractShape(s: string)
    ensures var r := ExtractTicketReference(s);
            r == "" || IsKeyReference(r) || IsNumberReference(r)
  {
    if SearchFrom(JiraKey, s, 0).Some? {
      KeyDecides(s);
    } else if SearchFrom(HashNumber, s, 0).Some? {
      NumberDecides(s);
    } else {
      ExtractReduces(s);
      ExtractNext([JiraKey, HashNumber], s);
      assert [JiraKey, HashNumber][1..] == [HashNumber];
      ExtractNext([HashNumber], s);
      assert [HashNumber][1..] == [];
    }
  }

  /** The first matching pattern decides: a key reference anywhere beats an earlier `#789`. */
  lemma ExtractPrefersKey(s: string)
    requires exists j :: 0 <= j <= |s| && MatchAt(JiraKey, s, j) > 0
    ensures IsKeyReference(ExtractTicketReference(s))
  {
    assert SearchFrom(JiraKey, s, 0).Some? by {
      if SearchFrom(JiraKey, s, 0).None? {
        SearchNone(JiraKey, s, 0);
      }
    }
    KeyDecides(s);
  }

  /** The first pattern that matches decides. */
  lemma ExtractFirst(ps: seq<Pattern>, s: string, m: Match)
    requires ps != [] && SearchFrom(ps[0], s, 0) == Some(m)
    ensures FirstMatch(ps, s) == Some(m)
  {
  }

  /** A pattern that matches nowhere hands over to the next one. */
  lemma ExtractNext(ps: seq<Pattern>, s: string)
    requires ps != [] && SearchFrom(ps[0], s, 0) == None
    ensures FirstMatch(ps, s) == FirstMatch(ps[1..], s)
  {
  }

  /** The reference is the decisive match's text, without '#', upper-cased. */
  lemma ExtractOf(ps: seq<Pattern>, s: string, m: Match)
    requires FirstMatch(ps, s) == Some(m)
    ensures m.start + m.len <= |s|
    ensures ExtractWith(ps, s) == Reference(s, m)
  {
  }

  /** No `[A-Z]+-\d+` match starts inside a letter run that is not followed by '-'. */
  lemma NoKeyInWord(s: string, j: nat, e: nat)
    requires j <= e <= |s|
    requires e == |s| || (!IsLetter(s[e]) && s[e] != '-')
    requires forall k :: j <= k < e ==> IsLetter(s[k])
    ensures forall k :: j <= k <= e ==> MatchAt(JiraKey, s, k) == 0
  {
    forall k | j <= k <= e ensures MatchAt(JiraKey, s, k) == 0 {
      RunLengthExact(s, k, Letters, e);
    }
  }

  /** No `#\d+` match starts where there is no '#'. */
  lemma NoHashIn(s: string, j: nat, e: nat)
    requires j <= e <= |s|
    requires forall k :: j <= k < e ==> s[k] != '#'
    ensures forall k :: j <= k < e ==> MatchAt(HashNumber, s, k) == 0
    ensures MatchAt(HashNumber, s, |s|) == 0
  {
  }

  /** The reference a key match yields: the matched text, upper-cased. */
  lemma KeyText(t: string, u: string)
    requires |t| == |u| && UpperFrom(t, u, 0)
    requires forall j :: 0 <= j < |t| ==> t[j] != '#'
    ensures UpperStr(RemoveHash(t)) == u
  {
    RemoveHashNone(t);
    UpperFromSound(t, u, 0);
  }

  /** When the key pattern matches, its match gives the reference. */
  lemma ExtractByKey(s: string, m: Match, u: string)
    requires SearchFrom(JiraKey, s, 0) == Some(m)
    requires m.start + m.len <= |s| && Reference(s, m) == u
    ensures ExtractTicketReference(s) == u
  {
    ExtractFirst(TicketPatterns, s, m);
    ExtractOf(TicketPatterns, s, m);
  }

  /** When no key matches but `#\d+` does, the number match gives the reference. */
  lemma ExtractByNumber(s: string, m: Match, u: string)
    requires SearchFrom(JiraKey, s, 0) == None && SearchFrom(HashNumber, s, 0) == Some(m)
    requires m.start + m.len <= |s| && Reference(s, m) == u
    ensures ExtractTicketReference(s) == u
  {
    ExtractReduces(s);
    ExtractNext([JiraKey, HashNumber], s);
    assert [JiraKey, HashNumber][1..] == [HashNumber];
    ExtractFirst([HashNumber], s, m);
    ExtractOf(TicketPatterns, s, m);
  }

  /** In "Check ticket PROJ-123" no key starts before "PROJ". */
  lemma SetupPrefix(s: string)
    requires s == "Check ticket PROJ-123"
    ensures forall k :: 0 <= k < 13 ==> MatchAt(JiraKey, s, k) == 0
  {
    NoKeyInWord(s, 0, 5);
    NoKeyInWord(s, 6, 12);
  }

  /** In "Check ticket PROJ-123" the key "PROJ-123" starts at 13. */
  lemma SetupKey(s: string)
    requires s == "Check ticket PROJ-123"
    ensures MatchAt(JiraKey, s, 13) == 8
  {
    RunLengthExact(s, 13, Letters, 17);
    RunLengthExact(s, 18, Digits, 21);
  }

  lemma SetupSearch(s: string)
    requires s == "Check ticket PROJ-123"
    ensures SearchFrom(JiraKey, s, 0) == Some(Match(13, 8))
  {
    SetupPrefix(s);
    SetupKey(s);
    SearchFinds(JiraKey, s, 0, 13);
  }

  lemma SetupReference(s: string)
    requires s == "Check ticket PROJ-123"
    ensures Reference(s, Match(13, 8)) == "PROJ-123"
  {
    assert s[13..21] == "PROJ-123";
    KeyText("PROJ-123", "PROJ-123");
  }

  /** The phrasing of the setup check: "Check ticket PROJ-123" refers to PROJ-123. */
  lemma ExtractExampleSetup(s: string)
    requires s == "Check ticket PROJ-123"
    ensures ExtractTicketReference(s) == "PROJ-123"
  {
    SetupSearch(s);
    SetupReference(s);
    ExtractByKey(s, Match(13, 8), "PROJ-123");
  }

  /** In "#789 about PROJ-5" no key starts before "PROJ". */
  lemma KeyFirstPrefix(s: string)
    requires s == "#789 about PROJ-5"
    ensures forall k :: 0 <= k < 11 ==> MatchAt(JiraKey, s, k) == 0
  {
    NoKeyInWord(s, 0, 0);
    NoKeyInWord(s, 1, 1);
    NoKeyInWord(s, 2, 2);
    NoKeyInWord(s, 3, 3);
    NoKeyInWord(s, 4, 4);
    NoKeyInWord(s, 5, 10);
  }

  /** In "#789 about PROJ-5" the key "PROJ-5" starts at 11. */
  lemma KeyFirstKey(s: string)
    requires s == "#789 about PROJ-5"
    ensures MatchAt(JiraKey, s, 11) == 6
  {
    RunLengthExact(s, 11, Letters, 15);
    RunLengthExact(s, 16, Digits, 17);
  }

  lemma KeyFirstSearch(s: string)
    requires s == "#789 about PROJ-5"
    ensures SearchFrom(JiraKey, s, 0) == Some(Match(11, 6))
  {
    KeyFirstPrefix(s);
    KeyFirstKey(s);
    SearchFinds(JiraKey, s, 0, 11);
  }

  lemma KeyFirstReference(s: string)
    requires s == "#789 about PROJ-5"
    ensures Reference(s, Match(11, 6)) == "PROJ-5"
  {
    assert s[11..17] == "PROJ-5";
    KeyText("PROJ-5", "PROJ-5");
  }

  /** A key later in the text wins over an earlier `#789`, because its pattern is tried first. */
  lemma ExtractExampleKeyFirst(s: string)
    requires s == "#789 about PROJ-5"
    ensures ExtractTicketReference(s) == "PROJ-5"
  {
    KeyFirstSearch(s);
    KeyFirstReference(s);
    ExtractByKey(s, Match(11, 6), "PROJ-5");
  }

  lemma LowerCaseSearch(s: string)
    requires s == "see ticket-42"
    ensures SearchFrom(JiraKey, s, 0) == Some(Match(4, 9))
  {
    NoKeyInWord(s, 0, 3);
    RunLengthExact(s, 4, Letters, 10);
    RunLengthExact(s, 11, Digits, 13);
    SearchFinds(JiraKey, s, 0, 4);
  }

  lemma LowerCaseReference(s: string)
    requires s == "see ticket-42"
    ensures Reference(s, Match(4, 9)) == "TICKET-42"
  {
    assert s[4..13] == "ticket-42";
    KeyText("ticket-42", "TICKET-42");
  }

  /** Case is ignored on the way in and upper-cased on the way out. */
  lemma ExtractExampleLowerCase(s: string)
    requires s == "see ticket-42"
    ensures ExtractTicketReference(s) == "TICKET-42"
  {
    LowerCaseSearch(s);
    LowerCaseReference(s);
    ExtractByKey(s, Match(4, 9), "TICKET-42");
  }

  /** "Issue #789" holds no key. */
  lemma NumberNoKey(s: string)
    requires s == "Issue #789"
    ensures forall k :: 0 <= k <= |s| ==> MatchAt(JiraKey, s, k) == 0
  {
    NoKeyInWord(s, 0, 5);
    NoKeyInWord(s, 6, 6);
    NoKeyInWord(s, 7, 7);
    NoKeyInWord(s, 8, 8);
    NoKeyInWord(s, 9, 9);
    NoKeyInWord(s, 10, 10);
  }

  lemma HashNumberReference(s: string)
    requires s == "Issue #789"
    ensures Reference(s, Match(6, 4)) == "789"
  {
    assert s[6..10] == "#789" == ['#'] + "789";
    KeyText("789", "789");
  }

  lemma NumberSearch(s: string)
    requires s == "Issue #789"
    ensures SearchFrom(JiraKey, s, 0) == None
    ensures SearchFrom(HashNumber, s, 0) == Some(Match(6, 4))
  {
    NumberNoKey(s);
    SearchMisses(JiraKey, s, 0);
    NoHashIn(s, 0, 6);
    RunLengthExact(s, 7, Digits, 10);
    SearchFinds(HashNumber, s, 0, 6);
  }

  /** A bare `#789` yields its digits. */
  lemma ExtractExampleNumber(s: string)
    requires s == "Issue #789"
    ensures ExtractTicketReference(s) == "789"
  {
    NumberSearch(s);
    HashNumberReference(s);
    ExtractByNumber(s, Match(6, 4), "789");
  }

  lemma NoneSearch(s: string)
    requires s == "no ticket here"
    ensures SearchFrom(JiraKey, s, 0) == None
    ensures SearchFrom(HashNumber, s, 0) == None
  {
    NoKeyInWord(s, 0, 2);
    NoKeyInWord(s, 3, 9);
    NoKeyInWord(s, 10, 14);
    SearchMisses(JiraKey, s, 0);
    NoHashIn(s, 0, 14);
    SearchMisses(HashNumber, s, 0);
  }

  /** Text without any reference yields the empty string. */
  lemma ExtractExampleNone(s: string)
    requires s == "no ticket here"
    ensures ExtractTicketReference(s) == ""
  {
    NoneSearch(s);
    ExtractReduces(s);
    ExtractNext([JiraKey, HashNumber], s);
    assert [JiraKey, HashNumber][1..] == [HashNumber];
    ExtractNext([HashNumber], s);
    assert [HashNumber][1..] == [];
  }
}
