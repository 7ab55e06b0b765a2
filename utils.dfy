/** `clean_text` from modules/utils.py: the normalisation applied to every page of
    an uploaded PDF before it is split and indexed. Two regular-expression
    substitutions and a strip:
      1. delete every character outside a fixed allow-set,
      2. replace every run of whitespace by one ASCII space,
      3. strip whitespace from both ends.
    Its partner is an independent reference definition, `" ".join(words)`, from
    which the output invariants and idempotence follow. */
module Utils {
  import opened PyText

  /** Full-width and ideographic punctuation kept by the allow-set. */
  const WidePunctuation: string := "：；、「」『』。，！？"

  /** The character class `[一-龥a-zA-Z0-9\s,.?!:：；、()\[\]「」『』。，！？\n]`. */
  predicate Allowed(c: char)
    ensures IsSpace(c) ==> Allowed(c)
  {
    || ('\U{4E00}' <= c <= '\U{9FA5}')
    || ('a' <= c <= 'z') || ('A' <= c <= 'Z') || ('0' <= c <= '9')
    || IsSpace(c)
    || c in ",.?!:()[]"
    || c in WidePunctuation
  }

  /** First substitution: every character outside the allow-set is deleted. */
  function RemoveDisallowed(s: string): (r: string)
    ensures |r| <= |s|
    ensures forall i :: 0 <= i < |r| ==> Allowed(r[i])
  {
    if s == [] then []
    else if Allowed(s[0]) then [s[0]] + RemoveDisallowed(s[1..])
    else RemoveDisallowed(s[1..])
  }

  /** Second substitution, `re.sub(r"\s+", " ", s)`: scanning left to right, each
      maximal whitespace run becomes a single `' '`. */
  function CollapseSpaces(s: string): (r: string)
    ensures |r| <= |s|
    decreases |s|
  {
    if s == [] then []
    else if IsSpace(s[0]) then [' '] + CollapseSpaces(StripLeft(s))
    else [s[0]] + CollapseSpaces(s[1..])
  }

  /** `clean_text(text)`. */
  function CleanText(text: string): (r: string)
    ensures |r| <= |text|
  {
    Strip(CollapseSpaces(RemoveDisallowed(text)))
  }

  // ---------------------------------------------------------------------------
  // The reference definition: split into words, join with one space

  /** The longest prefix of `s` free of whitespace. */
  function LeadingWord(s: string): (w: string)
    ensures |w| <= |s| && w == s[..|w|] && NoSpace(w)
    ensures |w| < |s| ==> IsSpace(s[|w|])
  {
    if s == [] || IsSpace(s[0]) then [] else [s[0]] + LeadingWord(s[1..])
  }

  /** A word: a non-empty string without whitespace. */
  predicate IsWord(w: string) {
    w != [] && NoSpace(w)
  }

  /** Every element of `ws` is a word. */
  predicate AllWords(ws: seq<string>) {
    forall i :: 0 <= i < |ws| ==> IsWord(ws[i])
  }

  /** Python's `s.split()`: the maximal whitespace-free runs of `s`, in order. */
  function Words(s: string): (ws: seq<string>)
    ensures AllWords(ws)
    decreases |s|
  {
    var t := StripLeft(s);
    if t == [] then []
    else
      var w := LeadingWord(t);
      [w] + Words(t[|w|..])
  }

  /** The characters of `s` that are not whitespace, in order. */
  function NonSpace(s: string): (r: string)
    ensures NoSpace(r)
  {
    if s == [] then []
    else if IsSpace(s[0]) then NonSpace(s[1..])
    else [s[0]] + NonSpace(s[1..])
  }

  /** The characters of `s` that are allowed and not whitespace, in order. */
  function Kept(s: string): string {
    if s == [] then []
    else if Allowed(s[0]) && !IsSpace(s[0]) then [s[0]] + Kept(s[1..])
    else Kept(s[1..])
  }

  function Concat(ws: seq<string>): string {
    if ws == [] then [] else ws[0] + Concat(ws[1..])
  }

  /** The shape of `clean_text`'s output: whitespace only as single ASCII spaces,
      never at either end, never two in a row. */
  predicate IsClean(r: string) {
    && (forall i :: 0 <= i < |r| && IsSpace(r[i]) ==> r[i] == ' ')
    && (r == [] || (!IsSpace(r[0]) && !IsSpace(r[|r| - 1])))
    && (forall i :: 0 <= i < |r| - 1 ==> !IsSpace(r[i]) || !IsSpace(r[i + 1]))
  }

  // ---------------------------------------------------------------------------
  // The substitutions against the reference

  /** Collapsing passes a whitespace-free prefix through unchanged. */
  lemma {:induction false} CollapseWordAppend(w: string, y: string)
    requires NoSpace(w)
    ensures CollapseSpaces(w + y) == w + CollapseSpaces(y)
    decreases |w|
  {
    if w == [] {
      assert w + y == y;
    } else {
      var s, t, c := w + y, w[1..] + y, CollapseSpaces(y);
      assert s[0] == w[0] && s[1..] == t;
      CollapseNonSpaceHead(s);
      assert NoSpace(w[1..]) by {
        forall i | 0 <= i < |w| - 1 ensures !IsSpace(w[1..][i]) { assert w[1..][i] == w[i + 1]; }
      }
      CollapseWordAppend(w[1..], y);
      assert w == [w[0]] + w[1..];
      calc {
        CollapseSpaces(s);
        [w[0]] + CollapseSpaces(t);
        [w[0]] + (w[1..] + c);
        ([w[0]] + w[1..]) + c;
        w + c;
      }
    }
  }

  /** Text without whitespace passes through the collapse unchanged. */
  lemma {:induction false} CollapseNoSpace(s: string)
    requires NoSpace(s)
    ensures CollapseSpaces(s) == s
  {
    CollapseWordAppend(s, []);
    assert s + [] == s;
  }

  /** One step of the scan over a character that is not whitespace. */
  lemma CollapseNonSpaceHead(s: string)
    requires s != [] && !IsSpace(s[0])
    ensures CollapseSpaces(s) == [s[0]] + CollapseSpaces(s[1..])
  {
  }

  /** Collapsing commutes with dropping leading whitespace. */
  lemma CollapseStripLeft(s: string)
    ensures StripLeft(CollapseSpaces(s)) == CollapseSpaces(StripLeft(s))
  {
    StripLeftIdempotent(s);
  }

  /** Leading whitespace does not change the words. */
  lemma WordsStripLeft(s: string)
    ensures Words(StripLeft(s)) == Words(s)
  {
    StripLeftIdempotent(s);
  }

  lemma {:induction false} StripLeftEmpty(s: string)
    requires StripLeft(s) == []
    ensures AllSpace(s)
    decreases |s|
  {
    if s != [] {
      assert IsSpace(s[0]);
      StripLeftEmpty(s[1..]);
      forall i | 1 <= i < |s| ensures IsSpace(s[i]) {
        assert s[i] == s[1..][i - 1];
      }
    }
  }

  /** A whitespace-only string collapses to at most one space. */
  lemma CollapseAllSpace(s: string)
    requires AllSpace(s)
    ensures CollapseSpaces(s) == if s == [] then [] else " "
  {
    if s != [] {
      StripLeftAllSpace(s);
    }
  }

  /** The word-then-rest decomposition of a string that starts with a word. */
  lemma SplitAtWord(t: string)
    requires t != [] && !IsSpace(t[0])
    ensures LeadingWord(t) != []
    ensures CollapseSpaces(t) == LeadingWord(t) + CollapseSpaces(t[|LeadingWord(t)|..])
    ensures Words(t) == [LeadingWord(t)] + Words(t[|LeadingWord(t)|..])
  {
    WordsAtWord(t);
    CollapseAtWord(t);
  }

  lemma WordsAtWord(t: string)
    requires t != [] && !IsSpace(t[0])
    ensures LeadingWord(t) != []
    ensures Words(t) == [LeadingWord(t)] + Words(t[|LeadingWord(t)|..])
  {
    assert StripLeft(t) == t;
  }

  lemma CollapseAtWord(t: string)
    ensures CollapseSpaces(t) == LeadingWord(t) + CollapseSpaces(t[|LeadingWord(t)|..])
  {
    var w := LeadingWord(t);
    var rest := t[|w|..];
    assert t == w + rest;
    CollapseWordAppend(w, rest);
  }

  /** The last word: trailing whitespace collapses to at most one space and is stripped. */
  lemma RStripLastWord(w: string, rest: string)
    requires IsWord(w) && AllSpace(rest)
    ensures StripRight(w + CollapseSpaces(rest)) == w
  {
    CollapseAllSpace(rest);
    StripRightSpaceTail(w, CollapseSpaces(rest));
  }

  /** A word followed by a collapsed space and more text: only the far end is stripped. */
  lemma RStripInnerSpace(w: string, c: string)
    requires c != [] && !IsSpace(c[0])
    ensures StripRight(w + ([' '] + c)) == w + " " + StripRight(c)
  {
    assert w + ([' '] + c) == (w + " ") + c;
    StripRightAppend(w + " ", c, 0);
  }

  /** The trailing part of the proof: for `t` not starting with whitespace,
      `re.sub(r"\s+", " ", t).rstrip() == " ".join(t.split())`. */
  lemma {:induction false} CollapseRStripIsJoin(t: string)
    requires t == [] || !IsSpace(t[0])
    ensures StripRight(CollapseSpaces(t)) == Join(" ", Words(t))
    decreases |t|
  {
    if t != [] {
      SplitAtWord(t);
      var w := LeadingWord(t);
      var rest := t[|w|..];
      var t' := StripLeft(rest);
      WordsStripLeft(rest);
      if t' == [] {
        assert Words(t) == [w];
        assert IsWord(w);
        StripLeftEmpty(rest);
        RStripLastWord(w, rest);
        assert Join(" ", [w]) == w;
      } else {
        var ws' := Words(t');
        assert Words(t) == [w] + ws';
        assert rest != [] && IsSpace(rest[0]);
        assert CollapseSpaces(rest) == [' '] + CollapseSpaces(t');
        CollapseRStripIsJoin(t');
        SplitAtWord(t');
        assert Join(" ", [w] + ws') == w + " " + Join(" ", ws');
        RStripInnerSpace(w, CollapseSpaces(t'));
      }
    }
  }

  /** `re.sub(r"\s+", " ", s).strip() == " ".join(s.split())` for every string. */
  lemma CollapseStripIsJoin(s: string)
    ensures Strip(CollapseSpaces(s)) == Join(" ", Words(s))
  {
    CollapseStripLeft(s);
    StripLeftIdempotent(s);
    CollapseRStripIsJoin(StripLeft(s));
  }

  /** `clean_text(text)` is `" ".join(words)` of the text with disallowed characters removed. */
  lemma CleanTextIsJoinedWords(text: string)
    ensures CleanText(text) == Join(" ", Words(RemoveDisallowed(text)))
  {
    CollapseStripIsJoin(RemoveDisallowed(text));
  }

  // ---------------------------------------------------------------------------
  // Properties of joined words

  /** Words joined with single spaces have the shape of clean text. */
  lemma {:induction false} JoinIsClean(ws: seq<string>)
    requires AllWords(ws)
    ensures IsClean(Join(" ", ws))
    decreases |ws|
  {
    if |ws| > 1 {
      var w, j := ws[0], Join(" ", ws[1..]);
      JoinIsClean(ws[1..]);
      assert IsWord(ws[1]);
      assert j != [] && !IsSpace(j[0]);
      var r := w + " " + j;
      forall i | 0 <= i < |r| && IsSpace(r[i]) ensures r[i] == ' ' {
        if i > |w| { assert r[i] == j[i - |w| - 1]; }
      }
      forall i | 0 <= i < |r| - 1 ensures !IsSpace(r[i]) || !IsSpace(r[i + 1]) {
        if i > |w| { assert r[i] == j[i - |w| - 1] && r[i + 1] == j[i - |w|]; }
      }
      assert r[|r| - 1] == j[|j| - 1];
    }
  }

  /** Splitting undoes joining with single spaces: `" ".join(ws).split() == ws`. */
  lemma {:induction false} WordsOfJoin(ws: seq<string>)
    requires AllWords(ws)
    ensures Words(Join(" ", ws)) == ws
    decreases |ws|
  {
    if |ws| == 1 {
      WordsCons(ws[0], []);
      assert ws[0] + [] == ws[0];
    } else if |ws| > 1 {
      assert AllWords(ws[1..]) by {
        forall i | 0 <= i < |ws| - 1 ensures IsWord(ws[1..][i]) { assert ws[1..][i] == ws[i + 1]; }
      }
      WordsOfJoin(ws[1..]);
      WordsJoinStep(ws);
      assert [ws[0]] + ws[1..] == ws;
    }
  }

  /** One step of `WordsOfJoin`: the first word splits off. */
  lemma WordsJoinStep(ws: seq<string>)
    requires |ws| > 1 && IsWord(ws[0]) && IsWord(ws[1])
    ensures Words(Join(" ", ws)) == [ws[0]] + Words(Join(" ", ws[1..]))
  {
    var j := Join(" ", ws[1..]);
    JoinStartsWithWord(ws[1..]);
    SpaceThenWord(ws[0], j);
  }

  /** `(w + " " + j).split() == [w] + j.split()` when `j` starts with a word. */
  lemma SpaceThenWord(w: string, j: string)
    requires IsWord(w) && j != [] && !IsSpace(j[0])
    ensures Words(w + " " + j) == [w] + Words(j)
  {
    var y := [' '] + j;
    assert w + " " + j == w + y;
    WordsCons(w, y);
    SpaceThenText(j);
  }

  /** One leading space does not change the words of text that starts with a word. */
  lemma SpaceThenText(j: string)
    requires j != [] && !IsSpace(j[0])
    ensures Words([' '] + j) == Words(j)
  {
    assert ([' '] + j)[1..] == j;
    assert StripLeft([' '] + j) == j;
  }

  lemma JoinStartsWithWord(ws: seq<string>)
    requires ws != [] && IsWord(ws[0])
    ensures Join(" ", ws) != [] && Join(" ", ws)[0] == ws[0][0]
  {
  }

  /** A word followed by whitespace or nothing is the first word. */
  lemma WordsCons(w: string, y: string)
    requires IsWord(w)
    requires y == [] || IsSpace(y[0])
    ensures Words(w + y) == [w] + Words(y)
  {
    LeadingWordOf(w, y);
    assert (w + y)[|w|..] == y;
  }

  /** The leading word of `w + y` is `w` when `w` is a word and `y` starts with a space. */
  lemma {:induction false} LeadingWordOf(w: string, y: string)
    requires NoSpace(w)
    requires y == [] || IsSpace(y[0])
    ensures LeadingWord(w + y) == w
    decreases |w|
  {
    if w == [] {
      assert w + y == y;
    } else {
      assert (w + y)[1..] == w[1..] + y;
      LeadingWordOf(w[1..], y);
    }
  }

  lemma {:induction false} NonSpaceAppend(x: string, y: string)
    ensures NonSpace(x + y) == NonSpace(x) + NonSpace(y)
    decreases |x|
  {
    if x == [] {
      assert x + y == y;
    } else {
      assert (x + y)[1..] == x[1..] + y;
      NonSpaceAppend(x[1..], y);
    }
  }

  lemma {:induction false} NonSpaceOfNoSpace(s: string)
    requires NoSpace(s)
    ensures NonSpace(s) == s
    decreases |s|
  {
    if s != [] { NonSpaceOfNoSpace(s[1..]); }
  }

  lemma {:induction false} NonSpaceOfAllSpace(s: string)
    requires AllSpace(s)
    ensures NonSpace(s) == []
    decreases |s|
  {
    if s != [] { NonSpaceOfAllSpace(s[1..]); }
  }

  /** The words hold exactly the non-whitespace characters, in order. */
  lemma {:induction false} ConcatWords(s: string)
    ensures Concat(Words(s)) == NonSpace(s)
    decreases |s|
  {
    var t := StripLeft(s);
    NonSpaceStripLeft(s);
    WordsStripLeft(s);
    if t != [] {
      SplitAtWord(t);
      var w := LeadingWord(t);
      var rest := t[|w|..];
      NonSpaceWord(t);
      ConcatWords(rest);
      assert ([w] + Words(rest))[1..] == Words(rest);
    }
  }

  lemma {:induction false} NonSpaceStripLeft(s: string)
    ensures NonSpace(StripLeft(s)) == NonSpace(s)
    decreases |s|
  {
    if s != [] && IsSpace(s[0]) { NonSpaceStripLeft(s[1..]); }
  }

  /** The leading word passes to `NonSpace` unchanged. */
  lemma NonSpaceWord(t: string)
    ensures NonSpace(t) == LeadingWord(t) + NonSpace(t[|LeadingWord(t)|..])
  {
    var w := LeadingWord(t);
    assert t == w + t[|w|..];
    NonSpaceAppend(w, t[|w|..]);
    NonSpaceOfNoSpace(w);
  }

  /** Joining with spaces adds only whitespace. */
  lemma {:induction false} NonSpaceOfJoin(ws: seq<string>)
    requires AllWords(ws)
    ensures NonSpace(Join(" ", ws)) == Concat(ws)
    decreases |ws|
  {
    if |ws| == 1 {
      NonSpaceOfNoSpace(ws[0]);
      assert Concat(ws) == ws[0] + [];
    } else if |ws| > 1 {
      NonSpaceOfJoin(ws[1..]);
      NonSpaceAppend(ws[0] + " ", Join(" ", ws[1..]));
      NonSpaceAppend(ws[0], " ");
      NonSpaceOfNoSpace(ws[0]);
      assert NonSpace(" ") == [];
    }
  }

  lemma {:induction false} NonSpaceOfRemoveDisallowed(s: string)
    ensures NonSpace(RemoveDisallowed(s)) == Kept(s)
    decreases |s|
  {
    if s != [] { NonSpaceOfRemoveDisallowed(s[1..]); }
  }

  lemma {:induction false} RemoveDisallowedKeepsAllowed(s: string)
    requires forall i :: 0 <= i < |s| ==> Allowed(s[i])
    ensures RemoveDisallowed(s) == s
    decreases |s|
  {
    if s != [] { RemoveDisallowedKeepsAllowed(s[1..]); }
  }

  lemma {:induction false} KeptAllowed(s: string, c: char)
    requires c in Kept(s)
    ensures Allowed(c) && !IsSpace(c)
    decreases |s|
  {
    if s != [] && !(Allowed(s[0]) && !IsSpace(s[0]) && c == s[0]) {
      KeptAllowed(s[1..], c);
    }
  }

  lemma {:induction false} NonSpaceHas(s: string, i: nat)
    requires i < |s| && !IsSpace(s[i])
    ensures s[i] in NonSpace(s)
    decreases |s|
  {
    if i > 0 { NonSpaceHas(s[1..], i - 1); }
  }

  // ---------------------------------------------------------------------------
  // What clean_text promises

  /** The output has clean shape: no whitespace other than single inner ASCII
      spaces, so newlines and tabs never survive. */
  lemma CleanTextIsClean(text: string)
    ensures IsClean(CleanText(text))
  {
    CleanTextIsJoinedWords(text);
    JoinIsClean(Words(RemoveDisallowed(text)));
  }

  /** Nothing allowed is dropped and nothing is added: the non-whitespace
      characters of the output are the allowed non-whitespace characters of
      the input, in their original order. */
  lemma CleanTextKeepsAllowed(text: string)
    ensures NonSpace(CleanText(text)) == Kept(text)
  {
    var f := RemoveDisallowed(text);
    CleanTextIsJoinedWords(text);
    NonSpaceOfJoin(Words(f));
    ConcatWords(f);
    NonSpaceOfRemoveDisallowed(text);
  }

  /** Every output character is in the allow-set and not whitespace, or is `' '`. */
  lemma CleanTextOnlyAllowed(text: string)
    ensures forall i :: 0 <= i < |CleanText(text)| ==>
      CleanText(text)[i] == ' ' || (Allowed(CleanText(text)[i]) && !IsSpace(CleanText(text)[i]))
  {
    var r := CleanText(text);
    CleanTextIsClean(text);
    CleanTextKeepsAllowed(text);
    forall i | 0 <= i < |r| && !IsSpace(r[i])
      ensures Allowed(r[i]) && !IsSpace(r[i])
    {
      NonSpaceHas(r, i);
      KeptAllowed(text, r[i]);
    }
  }

  /** Cleaning clean text changes nothing. */
  lemma CleanTextIdempotent(text: string)
    ensures CleanText(CleanText(text)) == CleanText(text)
  {
    var ws := Words(RemoveDisallowed(text));
    var r := CleanText(text);
    CleanTextIsJoinedWords(text);
    CleanTextOnlyAllowed(text);
    RemoveDisallowedKeepsAllowed(r);
    CleanTextIsJoinedWords(r);
    WordsOfJoin(ws);
  }
}
