/** The JavaScript string operations the query matcher uses: `trim`, `toLowerCase`,
    `split(/\s+/)`, `join(" ")` and `includes`. A `char` is a Unicode scalar value;
    JavaScript strings are UTF-16 code units, which this model does not distinguish. */
module Text {

  /** The characters matched by `\s` and removed by `trim` (ECMAScript WhiteSpace and
      LineTerminator). */
  predicate IsWhitespace(c: char)
  {
    || c == '\t' || c == '\n' || c == '\U{000B}' || c == '\U{000C}' || c == '\r' || c == ' '
    || c == '\U{00A0}' || c == '\U{1680}' || ('\U{2000}' <= c <= '\U{200A}')
    || c == '\U{2028}' || c == '\U{2029}' || c == '\U{202F}' || c == '\U{205F}'
    || c == '\U{3000}' || c == '\U{FEFF}'
  }

  predicate NoWhitespace(s: string)
  {
    forall k | 0 <= k < |s| :: !IsWhitespace(s[k])
  }

  predicate AllWhitespace(s: string)
  {
    forall k | 0 <= k < |s| :: IsWhitespace(s[k])
  }

  /** Lower-casing restricted to ASCII letters. */
  function LowerChar(c: char): (d: char)
    ensures IsWhitespace(d) == IsWhitespace(c)
  {
    if 'A' <= c <= 'Z' then (c as int + 32) as char else c
  }

  function ToLower(s: string): (r: string)
    ensures |r| == |s|
  {
    seq(|s|, k requires 0 <= k < |s| => LowerChar(s[k]))
  }

  lemma ToLowerConcat(a: string, b: string)
    ensures ToLower(a + b) == ToLower(a) + ToLower(b)
  {
  }

  lemma ToLowerSlice(s: string, i: nat, j: nat)
    requires i <= j <= |s|
    ensures ToLower(s)[i..j] == ToLower(s[i..j])
  {
  }

  /** `trimStart`: drops the leading whitespace. */
  function TrimStart(s: string): (r: string)
    ensures |r| <= |s| && r == s[|s| - |r|..]
    ensures AllWhitespace(s[..|s| - |r|])
    ensures r == [] || !IsWhitespace(r[0])
  {
    if s != [] && IsWhitespace(s[0]) then
      var r := TrimStart(s[1..]);
      TrimStartStep(s, r);
      r
    else s
  }

  /** One more whitespace character in front of an already trimmed tail. */
  lemma TrimStartStep(s: string, r: string)
    requires s != [] && IsWhitespace(s[0])
    requires |r| <= |s| - 1 && r == s[1..][|s| - 1 - |r|..]
    requires AllWhitespace(s[1..][..|s| - 1 - |r|])
    ensures r == s[|s| - |r|..] && AllWhitespace(s[..|s| - |r|])
  {
    var k := |s| - |r|;
    assert s[1..][k - 1..] == s[k..];
    forall c | 1 <= c < k
      ensures IsWhitespace(s[c])
    {
      assert s[c] == s[1..][..k - 1][c - 1];
    }
  }

  /** `trimEnd`: drops the trailing whitespace. */
  function TrimEnd(s: string): (r: string)
    ensures |r| <= |s| && r == s[..|r|]
    ensures AllWhitespace(s[|r|..])
    ensures r == [] || !IsWhitespace(r[|r| - 1])
  {
    if s != [] && IsWhitespace(s[|s| - 1]) then TrimEnd(s[..|s| - 1]) else s
  }

  function Trim(s: string): string
  {
    TrimEnd(TrimStart(s))
  }

  /** A string of whitespace only trims to the empty string. */
  lemma TrimAllWhitespace(s: string)
    requires AllWhitespace(s)
    ensures Trim(s) == []
  {
  }

  /** A string that neither starts nor ends with whitespace is its own trim. */
  lemma TrimUntrimmed(s: string)
    requires s == [] || (!IsWhitespace(s[0]) && !IsWhitespace(s[|s| - 1]))
    ensures Trim(s) == s
  {
  }

  /** Trimming and lower-casing commute, because lower-casing maps whitespace to
      whitespace and everything else to non-whitespace. */
  lemma {:induction false} TrimStartLower(s: string)
    ensures TrimStart(ToLower(s)) == ToLower(TrimStart(s))
  {
    if s != [] && IsWhitespace(s[0]) {
      TrimStartLower(s[1..]);
      TrimStartLowerStep(s);
    } else {
      TrimStartLowerStop(s);
    }
  }

  lemma TrimStartLowerStep(s: string)
    requires s != [] && IsWhitespace(s[0])
    ensures TrimStart(ToLower(s)) == TrimStart(ToLower(s[1..])) && TrimStart(s) == TrimStart(s[1..])
  {
    var l := ToLower(s);
    assert l[0] == LowerChar(s[0]);
    assert l[1..] == ToLower(s[1..]);
  }

  lemma TrimStartLowerStop(s: string)
    requires s == [] || !IsWhitespace(s[0])
    ensures TrimStart(ToLower(s)) == ToLower(s) && TrimStart(s) == s
  {
    if s != [] {
      assert ToLower(s)[0] == LowerChar(s[0]);
    }
  }

  lemma {:induction false} TrimEndLower(s: string)
    ensures TrimEnd(ToLower(s)) == ToLower(TrimEnd(s))
  {
    if s != [] && IsWhitespace(s[|s| - 1]) {
      TrimEndLower(s[..|s| - 1]);
      TrimEndLowerStep(s);
    } else {
      TrimEndLowerStop(s);
    }
  }

  lemma TrimEndLowerStep(s: string)
    requires s != [] && IsWhitespace(s[|s| - 1])
    ensures TrimEnd(ToLower(s)) == TrimEnd(ToLower(s[..|s| - 1])) && TrimEnd(s) == TrimEnd(s[..|s| - 1])
  {
    var l := ToLower(s);
    assert l[|s| - 1] == LowerChar(s[|s| - 1]);
    assert l[..|s| - 1] == ToLower(s[..|s| - 1]);
  }

  lemma TrimEndLowerStop(s: string)
    requires s == [] || !IsWhitespace(s[|s| - 1])
    ensures TrimEnd(ToLower(s)) == ToLower(s) && TrimEnd(s) == s
  {
    if s != [] {
      assert ToLower(s)[|s| - 1] == LowerChar(s[|s| - 1]);
    }
  }

  lemma TrimLower(s: string)
    ensures Trim(ToLower(s)) == ToLower(Trim(s))
  {
    TrimStartLower(s);
    TrimEndLower(TrimStart(s));
  }

  /** Position of the first whitespace character, or |s| when there is none. */
  function FirstWhitespace(s: string): (i: nat)
    ensures i <= |s| && NoWhitespace(s[..i])
    ensures i < |s| ==> IsWhitespace(s[i])
  {
    if s == [] || IsWhitespace(s[0]) then 0 else 1 + FirstWhitespace(s[1..])
  }

  /** End of the whitespace run that starts at `i`: `\s+` matches greedily. */
  function RunEnd(s: string, i: nat): (e: nat)
    requires i < |s| && IsWhitespace(s[i])
    ensures i < e <= |s| && AllWhitespace(s[i..e])
    ensures e < |s| ==> !IsWhitespace(s[e])
    decreases |s| - i
  {
    if i + 1 < |s| && IsWhitespace(s[i + 1]) then RunEnd(s, i + 1) else i + 1
  }

  /** `s.split(/\s+/)`: the pieces between maximal whitespace runs. A string without
      whitespace (the empty string included) is a single piece; leading or trailing
      whitespace yields an empty first or last piece. */
  function Split(s: string): (r: seq<string>)
    ensures |r| >= 1
    decreases |s|
  {
    var i := FirstWhitespace(s);
    if i == |s| then [s] else [s[..i]] + Split(s[RunEnd(s, i)..])
  }

  /** No piece contains whitespace. */
  lemma {:induction false} SplitPiecesHaveNoWhitespace(s: string)
    ensures forall k | 0 <= k < |Split(s)| :: NoWhitespace(Split(s)[k])
    decreases |s|
  {
    var i := FirstWhitespace(s);
    if i < |s| {
      SplitPiecesHaveNoWhitespace(s[RunEnd(s, i)..]);
    }
  }

  /** `xs.join(sep)`. */
  function JoinWith(xs: seq<string>, sep: string): string
  {
    if xs == [] then [] else if |xs| == 1 then xs[0] else xs[0] + sep + JoinWith(xs[1..], sep)
  }

  predicate IsWord(t: string)
  {
    t != [] && NoWhitespace(t)
  }

  /** A separator that `\s+` consumes: a non-empty run of whitespace. */
  predicate IsRun(w: string)
  {
    w != [] && AllWhitespace(w)
  }

  /** `ws[0] + seps[0] + ws[1] + ... + ws[|ws| - 1]`: pieces with a separator between
      each two neighbours. */
  function Interleave(ws: seq<string>, seps: seq<string>): string
    requires |ws| == |seps| + 1
    decreases |seps|
  {
    if seps == [] then ws[0] else ws[0] + seps[0] + Interleave(ws[1..], seps[1..])
  }

  /** The whitespace runs that `split(/\s+/)` cuts at, in order. */
  function Separators(s: string): seq<string>
    decreases |s|
  {
    var i := FirstWhitespace(s);
    if i == |s| then [] else [s[i..RunEnd(s, i)]] + Separators(s[RunEnd(s, i)..])
  }

  /** Only the first and the last piece can be empty: every other piece lies between
      two maximal runs, so it starts with a non-whitespace character. */
  lemma {:induction false} SplitInteriorPiecesNonEmpty(s: string)
    ensures forall k | 0 < k < |Split(s)| - 1 :: Split(s)[k] != []
    decreases |s|
  {
    var i := FirstWhitespace(s);
    if i < |s| {
      var e := RunEnd(s, i);
      var rest := s[e..];
      SplitUnfold(s, i, e);
      SplitInteriorPiecesNonEmpty(rest);
      if rest != [] {
        SplitHeadNonEmpty(rest);
      }
    }
  }

  /** A string that starts with a non-whitespace character has a non-empty first piece. */
  lemma SplitHeadNonEmpty(s: string)
    requires s != [] && !IsWhitespace(s[0])
    ensures Split(s)[0] != []
  {
    assert FirstWhitespace(s) > 0;
  }

  /** Every string is its pieces rejoined with the runs between them, each run
      non-empty and all whitespace. With `SplitPiecesHaveNoWhitespace` and
      `SplitInteriorPiecesNonEmpty` this fixes the split: the pieces are exactly the
      maximal whitespace-free stretches. */
  lemma {:induction false} SplitRejoin(s: string)
    ensures |Split(s)| == |Separators(s)| + 1
    ensures forall k | 0 <= k < |Separators(s)| :: IsRun(Separators(s)[k])
    ensures Interleave(Split(s), Separators(s)) == s
    decreases |s|
  {
    var i := FirstWhitespace(s);
    if i < |s| {
      var e := RunEnd(s, i);
      var piece, run, rest := s[..i], s[i..e], s[e..];
      SplitRejoin(rest);
      SplitUnfold(s, i, e);
      RunsCons(run, Separators(rest));
      InterleaveCons(piece, Split(rest), run, Separators(rest));
      Reassemble(s, i, e);
    }
  }

  lemma Reassemble<T>(s: seq<T>, i: nat, e: nat)
    requires i <= e <= |s|
    ensures s[..i] + s[i..e] + s[e..] == s
  {
  }

  lemma SplitUnfold(s: string, i: nat, e: nat)
    requires i == FirstWhitespace(s) < |s| && e == RunEnd(s, i)
    ensures Split(s) == [s[..i]] + Split(s[e..])
    ensures Separators(s) == [s[i..e]] + Separators(s[e..])
    ensures IsRun(s[i..e])
  {
  }

  lemma RunsCons(run: string, runs: seq<string>)
    requires IsRun(run)
    requires forall k | 0 <= k < |runs| :: IsRun(runs[k])
    ensures forall k | 0 <= k < |[run] + runs| :: IsRun(([run] + runs)[k])
  {
  }

  lemma InterleaveCons(w: string, ws: seq<string>, sep: string, seps: seq<string>)
    requires |ws| == |seps| + 1
    ensures Interleave([w] + ws, [sep] + seps) == w + sep + Interleave(ws, seps)
  {
    assert ([w] + ws)[1..] == ws;
    assert ([sep] + seps)[1..] == seps;
  }

  /** Round trip: splitting words joined by any whitespace runs gives the words back. */
  lemma {:induction false} SplitInterleave(ws: seq<string>, seps: seq<string>)
    requires |ws| == |seps| + 1
    requires forall k | 0 <= k < |ws| :: IsWord(ws[k])
    requires forall k | 0 <= k < |seps| :: IsRun(seps[k])
    ensures Split(Interleave(ws, seps)) == ws
    decreases |seps|
  {
    var s := Interleave(ws, seps);
    if seps == [] {
      NoWhitespaceFirst(s);
    } else {
      var t, w, rest := ws[0], seps[0], Interleave(ws[1..], seps[1..]);
      assert s == t + (w + rest);
      FirstWhitespaceAfterWord(t, w + rest);
      InterleaveEnds(ws[1..], seps[1..]);
      assert s[|t|..|t| + |w|] == w;
      RunEndAt(s, |t|, w);
      assert s[|t| + |w|..] == rest;
      SplitInterleave(ws[1..], seps[1..]);
    }
  }

  /** A run `w` that starts at `i` and is followed by the end or by non-whitespace is
      exactly what the greedy `\s+` consumes there. */
  lemma {:induction false} RunEndAt(s: string, i: nat, w: string)
    requires IsRun(w) && i + |w| <= |s| && s[i..i + |w|] == w
    requires i + |w| == |s| || !IsWhitespace(s[i + |w|])
    ensures RunEnd(s, i) == i + |w|
    decreases |w|
  {
    assert s[i] == w[0];
    if |w| > 1 {
      assert s[i + 1] == w[1];
      assert s[i + 1..i + 1 + |w[1..]|] == w[1..];
      RunEndAt(s, i + 1, w[1..]);
    }
  }

  lemma NoWhitespaceFirst(s: string)
    requires NoWhitespace(s)
    ensures FirstWhitespace(s) == |s|
  {
  }

  lemma {:induction false} FirstWhitespaceAfterWord(t: string, u: string)
    requires NoWhitespace(t) && u != [] && IsWhitespace(u[0])
    ensures FirstWhitespace(t + u) == |t|
  {
    if t != [] {
      FirstWhitespaceAfterWord(t[1..], u);
      assert (t + u)[1..] == t[1..] + u;
    }
  }

  /** Words interleaved with anything neither start nor end with whitespace. */
  lemma {:induction false} InterleaveEnds(ws: seq<string>, seps: seq<string>)
    requires |ws| == |seps| + 1
    requires forall k | 0 <= k < |ws| :: IsWord(ws[k])
    ensures var s := Interleave(ws, seps);
      s != [] && !IsWhitespace(s[0]) && !IsWhitespace(s[|s| - 1])
    decreases |seps|
  {
    if seps != [] {
      InterleaveEnds(ws[1..], seps[1..]);
      var s, rest := Interleave(ws, seps), Interleave(ws[1..], seps[1..]);
      assert s == ws[0] + (seps[0] + rest);
      assert s[0] == ws[0][0];
      assert s[|s| - 1] == rest[|rest| - 1];
    }
  }

  function LowerAll(xs: seq<string>): (r: seq<string>)
    ensures |r| == |xs|
  {
    seq(|xs|, k requires 0 <= k < |xs| => ToLower(xs[k]))
  }

  lemma {:induction false} InterleaveLower(ws: seq<string>, seps: seq<string>)
    requires |ws| == |seps| + 1
    ensures ToLower(Interleave(ws, seps)) == Interleave(LowerAll(ws), LowerAll(seps))
    decreases |seps|
  {
    if seps != [] {
      InterleaveLower(ws[1..], seps[1..]);
      assert LowerAll(ws)[1..] == LowerAll(ws[1..]);
      assert LowerAll(seps)[1..] == LowerAll(seps[1..]);
      ToLowerConcat(ws[0] + seps[0], Interleave(ws[1..], seps[1..]));
      ToLowerConcat(ws[0], seps[0]);
    }
  }

  /** Lower-casing keeps words words and runs runs. */
  lemma LowerKeepsShape(ws: seq<string>, seps: seq<string>)
    requires forall k | 0 <= k < |ws| :: IsWord(ws[k])
    requires forall k | 0 <= k < |seps| :: IsRun(seps[k])
    ensures forall k | 0 <= k < |ws| :: IsWord(LowerAll(ws)[k])
    ensures forall k | 0 <= k < |seps| :: IsRun(LowerAll(seps)[k])
  {
    forall k | 0 <= k < |ws|
      ensures IsWord(LowerAll(ws)[k])
    {
      assert LowerAll(ws)[k] == ToLower(ws[k]);
      assert forall c | 0 <= c < |ws[k]| :: !IsWhitespace(ws[k][c]);
    }
    forall k | 0 <= k < |seps|
      ensures IsRun(LowerAll(seps)[k])
    {
      assert LowerAll(seps)[k] == ToLower(seps[k]);
      assert forall c | 0 <= c < |seps[k]| :: IsWhitespace(seps[k][c]);
    }
  }

  /** Leading whitespace in front of a non-whitespace start is all that `trimStart` drops. */
  lemma {:induction false} TrimStartPast(lead: string, x: string)
    requires AllWhitespace(lead) && x != [] && !IsWhitespace(x[0])
    ensures TrimStart(lead + x) == x
  {
    var s := lead + x;
    if lead != [] {
      assert s[0] == lead[0];
      assert s[1..] == lead[1..] + x;
      TrimStartPast(lead[1..], x);
      assert TrimStart(s) == TrimStart(s[1..]);
    } else {
      assert s == x;
    }
  }

  /** Whitespace around a string that neither starts nor ends with whitespace is
      exactly what `trim` drops. */
  lemma TrimAround(lead: string, x: string, trail: string)
    requires AllWhitespace(lead) && AllWhitespace(trail)
    requires x != [] && !IsWhitespace(x[0]) && !IsWhitespace(x[|x| - 1])
    ensures Trim(lead + x + trail) == x
  {
    assert lead + x + trail == lead + (x + trail);
    TrimStartPast(lead, x + trail);
    TrimEndPast(x, trail);
  }

  /** Trailing whitespace after a non-whitespace end is all that `trimEnd` drops. */
  lemma {:induction false} TrimEndPast(x: string, trail: string)
    requires AllWhitespace(trail) && x != [] && !IsWhitespace(x[|x| - 1])
    ensures TrimEnd(x + trail) == x
  {
    if trail != [] {
      var init := trail[..|trail| - 1];
      TrimEndPast(x, init);
      assert (x + trail)[..|x + trail| - 1] == x + init;
    }
  }

  /** `haystack.includes(needle)`. */
  function Contains(haystack: string, needle: string): bool
  {
    needle <= haystack || (haystack != [] && Contains(haystack[1..], needle))
  }

  /** `needle` occurs in `haystack` starting at position `i`. */
  predicate OccursAt(haystack: string, needle: string, i: int)
  {
    0 <= i && i + |needle| <= |haystack| && haystack[i..i + |needle|] == needle
  }

  /** `includes` holds exactly when the needle occurs at some position. */
  lemma {:induction false} ContainsIff(haystack: string, needle: string)
    ensures Contains(haystack, needle) <==> exists i :: OccursAt(haystack, needle, i)
  {
    if needle <= haystack {
      assert OccursAt(haystack, needle, 0);
    } else if haystack != [] {
      ContainsIff(haystack[1..], needle);
      OccursLater(haystack, needle);
    }
  }

  /** Past a failed prefix test, the needle occurs in the haystack iff it occurs in its tail. */
  lemma OccursLater(haystack: string, needle: string)
    requires haystack != [] && !(needle <= haystack)
    ensures (exists i :: OccursAt(haystack, needle, i)) <==> exists i :: OccursAt(haystack[1..], needle, i)
  {
    if exists i :: OccursAt(haystack, needle, i) {
      var i :| OccursAt(haystack, needle, i);
      assert i != 0;
      assert OccursAt(haystack[1..], needle, i - 1);
    }
    if exists i :: OccursAt(haystack[1..], needle, i) {
      var i :| OccursAt(haystack[1..], needle, i);
      assert OccursAt(haystack, needle, i + 1);
    }
  }

  /** Every needle is included in the haystack iff every needle occurs at some position. */
  lemma AllContainedIff(haystack: string, needles: seq<string>)
    ensures (forall k | 0 <= k < |needles| :: Contains(haystack, needles[k])) <==>
      (forall t | t in needles :: exists i :: OccursAt(haystack, t, i))
  {
    forall t | t in needles
      ensures Contains(haystack, t) <==> exists i :: OccursAt(haystack, t, i)
    {
      ContainsIff(haystack, t);
    }
    if forall k | 0 <= k < |needles| :: Contains(haystack, needles[k]) {
      forall t | t in needles
        ensures Contains(haystack, t)
      {
        var k :| 0 <= k < |needles| && needles[k] == t;
      }
    }
    if forall t | t in needles :: exists i :: OccursAt(haystack, t, i) {
      forall k | 0 <= k < |needles|
        ensures Contains(haystack, needles[k])
      {
        assert needles[k] in needles;
      }
    }
  }

  /** Whether all needles are included depends only on the set of needles. */
  lemma SameNeedlesSameAnswer(haystack: string, n1: seq<string>, n2: seq<string>)
    requires forall t :: t in n1 <==> t in n2
    ensures (forall k | 0 <= k < |n1| :: Contains(haystack, n1[k])) ==
      (forall k | 0 <= k < |n2| :: Contains(haystack, n2[k]))
  {
    if forall k | 0 <= k < |n1| :: Contains(haystack, n1[k]) {
      forall k | 0 <= k < |n2|
        ensures Contains(haystack, n2[k])
      {
        assert n2[k] in n1;
      }
    }
    if forall k | 0 <= k < |n2| :: Contains(haystack, n2[k]) {
      forall k | 0 <= k < |n1|
        ensures Contains(haystack, n1[k])
      {
        assert n1[k] in n2;
      }
    }
  }

  /** Lower-casing two lists with the same elements gives lists with the same elements. */
  lemma LowerAllSameElements(xs: seq<string>, ys: seq<string>)
    requires forall t :: t in xs <==> t in ys
    ensures forall t :: t in LowerAll(xs) <==> t in LowerAll(ys)
  {
    forall t | t in LowerAll(xs)
      ensures t in LowerAll(ys)
    {
      var k :| 0 <= k < |xs| && LowerAll(xs)[k] == t;
      assert xs[k] in ys;
      var m :| 0 <= m < |ys| && ys[m] == xs[k];
      assert LowerAll(ys)[m] == t;
    }
    forall t | t in LowerAll(ys)
      ensures t in LowerAll(xs)
    {
      var k :| 0 <= k < |ys| && LowerAll(ys)[k] == t;
      assert ys[k] in xs;
      var m :| 0 <= m < |xs| && xs[m] == ys[k];
      assert LowerAll(xs)[m] == t;
    }
  }

  /** The first piece of a join is a prefix of the joined string. */
  lemma JoinPrefix(xs: seq<string>, sep: string)
    requires xs != []
    ensures xs[0] <= JoinWith(xs, sep)
  {
    if |xs| > 1 {
      assert JoinWith(xs, sep) == xs[0] + (sep + JoinWith(xs[1..], sep));
    }
  }

  /** A needle found in a prefix is found, lower-cased, in the lower-cased whole string. */
  lemma ContainsLowerInExtension(h: string, needle: string, whole: string)
    requires Contains(h, needle) && h <= whole
    ensures Contains(ToLower(whole), ToLower(needle))
  {
    ContainsIff(h, needle);
    var i :| OccursAt(h, needle, i);
    assert whole[i..i + |needle|] == h[i..i + |needle|];
    ToLowerSlice(whole, i, i + |needle|);
    assert OccursAt(ToLower(whole), ToLower(needle), i);
    ContainsIff(ToLower(whole), ToLower(needle));
  }
}
